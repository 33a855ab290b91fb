# SkyGuard, verified

A Dafny model of the parts of SkyGuard that decide who gets in, what survives a
failure and what undoes itself, with proofs of what they promise. `dafny verify
dfyconfig.toml` checks all of it.

| module | models |
|---|---|
| `RuleText`, `PortModel`, `PortCompiler`, `PortGuarantees` | rules as they are written and validated, port access rules, packets, the two iptables chains with an evaluator, the compiler between them, and what every compiled rule set guarantees |
| `TrialTest`, `TrialManager` | which rule changes need a trial, and the saved / active / trial machine around them, under refused calls, late timers and restarts |
| `JumpOrder` | where ban and port chains hang in INPUT and FORWARD, and the ban chain |
| `Hull` | the convex hull of the topology view |
| `Recreate` | replacing a Docker container with rollback, against a daemon where any call may fail |
| `IncusPorts`, `ProxyText` | making an instance's proxy devices match a list of ports under profile overriding, and the devices' address text |
| `Versions`, `Launcher`, `Install` | the version order, the launcher that undoes bad updates, and staging an update on disk |
| `ComposeSplice`, `ComposeText`, `PortText`, `PortActions` | splicing changes into a compose file, rewriting its short port syntax, printing and reading port lists, and the three actions on a published port |
| `RateLimit`, `ScanDetector` | sliding windows against the whole history |
| `BanMachine`, `BanServer` | bans, scores and firewall rules over time: a machine of single calls in any interleaving, and the server whose operations take its steps |
| `Basics`, `Text` | options, maps and the few text functions the others share |

How to read it. Where the program changes state in place, there is a class or
an array, and each method is proved against a function or a property of the
old and new state; the laws are then proved of runs of those. Where a call can
be refused (a daemon, the firewall, the database, the disk) the answer is a
parameter, and a lemma that needs one says so. Whole histories that the program
does not keep are ghost fields.

The main results, hardest first:

- The chains `Compile` writes give every packet the verdict of the plain
  policy (`PortCompiler.Compile`). A change of rules that the trial test sees and
  lets pass turns no one away that the saved rules let in
  (`TrialTest.NotRiskySound`), and over any run of such sets that settles and in
  which nothing is confirmed, neither does the kernel
  (`TrialManager.NothingLostUnconfirmed`). A set that goes on trial is saved and
  stored once it is confirmed, and gone once it is not (`TrialManager.TrialConfirmed`,
  `TrialUndone`).
- The monotone chain returns the convex hull: once around, strictly convex,
  around every input point (`Hull.ConvexHull`).
- Recreating a container never loses it, at no moment and whichever calls fail
  (`Recreate.RecreateContainer`); stopping an install after any step leaves a
  state that can be started (`Install.Disk.StageAndApply`); a version that does
  not stay up is handed over to at most three times, and once more for each attempt
  that could not be stored (`Launcher.EveryRunSound`), and otherwise the higher of
  the installed and the applied version runs (`Launcher.GoodUpdateRuns`,
  `NewerBinaryWins`, `HandedOutranks`).
- Bottom-up splicing is the replacement of all line ranges at once
  (`ComposeSplice.Apply`); port lists come back from their text exactly when
  they are valid (`PortText.RoundTripIff`).
- However database and firewall calls interleave, no whitelisted address is handed
  to the firewall, maintenance deletes only expired rows whose rule is gone, and an
  address is banned automatically exactly when its points are enough
  (`BanMachine.WhitelistedNeverHanded`, `ReleasedOnlyExpired`, `AutoBanIff`).
- The pruned windows of the rate limiter and the scan detector answer as the
  whole history would (`RateLimit.RateLimiter.Check`,
  `ScanDetector.Detector.RecordPort`).

Where the code and what it says of itself differ, the model follows the code,
and a lemma says exactly when the promise holds:

- README.md:518-519 says a session that is already open is never cut. "Everyone
  except these" rules drop every client packet of a listed source, open session
  or not (`PortGuarantees.OpenSessionDroppedIff`, `SessionCutExample`); only
  rule sets without them spare open sessions (`AllAllowSparesOpenSessions`).
- The trial test reads a mapped address without a length, such as
  ::ffff:203.0.113.5, as IPv6 and the compiler as IPv4
  (internal/portrules/manager.go:526-529 and internal/firewall/ports.go:178-182). A
  rule that names the server only so is saved without a trial and closes the port
  (`TrialTest.ReadAlikeIff`, `HiddenRuleExample`, `TrialManager.HiddenSetExample`).
  `Validate` writes such an address when one is entered with its full length, and
  rewrites it to IPv4 when a restart loads it (`PortModel.RereadIsNormal`,
  `TrialTest.LoadedIsSeen`).
- A trial that ends while the firewall refuses the saved rules, or refuses to
  let go of the trial's chains when nothing is saved, leaves them in force with no
  trial running (`TrialManager.UndoSteadyIff`, `UndoRefusedExample`; the errors of
  `Remove` are dropped, internal/firewall/ports.go:568-582), and a process that stops
  during a trial with nothing saved leaves its chains in the kernel for good,
  although internal/server/ports.go:164-165 counts on a restart undoing them
  (`TrialManager.RestartLeavesTrialInKernel`, `RestartSteadyIff`).
- A switch of a passed-on address that the store refuses stays in force and is
  lost at the next start (`TrialManager.FollowStoredIff`, `SwitchLostExample`).
- When the store cannot be read at start, the manager goes on as if nothing were
  saved, and the first switch that is thrown erases the stored rules
  (`TrialManager.UnreadableStart`).
- Validating a rule twice changes it exactly when it names a mapped address with its
  full length, such as ::ffff:1.2.3.4/128: that is written without the length, which
  the next reading takes for IPv4 (internal/firewall/ports.go:125-131 and 178-182;
  `RuleText.CheckedTwiceIff`, `ValidatedTwiceExample`), and only then does the written
  network cover other addresses (`PortModel.NormalKeepsNetIff`).
- `Unban` says it deletes every DROP rule for an address; it deletes up to
  sixteen in each chain (`JumpOrder.Firewall.Unban`, `UnbanSeventeen`).
- Taking out an instance's own proxy uncovers a profile's device of the same
  name; `SetPorts` reconciles in every order of the devices exactly when each own
  proxy that hides one is for a requested port that no other device serves
  (`IncusPorts.SetPorts`, `NothingUncoveredIff`, `ShadowRun`).
- Two versions that first differ in two spellings of one number, such as 1.0.0-01
  and 1.0.0-1, are each above the other (`Versions.CompareFlipsIff`,
  `SpellingsExample`).
- "The newest choice wins" (internal/update/state.go:118-119) does not hold for
  the version that is put back after too many attempts: it is not compared with
  the installed binary again (`Launcher.NewestWinsUnlessOverlooked`,
  `OverlookedExample`).
- While state.json cannot be written, attempts are not counted, and a version that
  does not stay up is handed over to without bound (internal/update/state.go:142;
  `Launcher.UncountedExample`).
- When state.json cannot be written and a staged binary is missing, `Launch`
  calls itself for ever (`Launcher.RefusedWritesEndIff`, `StuckExample`).
- With a scan threshold of one, cleanup can be seen: an address it has forgotten
  is reported as first again (`ScanDetector.Detector.RecordPort`, `ForgottenRun`).
- A ban renewed between the listing of expired bans and the removal of its old
  rule (the window internal/storage/bans.go:125-126 names) keeps its row but loses its
  rule, until the next connection from it puts that back
  (`BanMachine.RenewalIff`, `RenewalLosesRuleExample`).
- A score reset that the database refuses when a ban is lifted lets one new
  point ban again: fewer new points than the threshold suffice exactly when what was
  carried over makes up the difference (`BanMachine.FewerPointsIff`,
  `BanServer.RefusedResetRun`), and
  an `UnbanIP` that the firewall refuses leaves a rule without a row
  (`BanMachine.StrayIff`, `BanServer.Server.UnbanIP`).

## Model

| member | source | states |
|---|---|---|
| PortCompiler.Compile | internal/firewall/ports.go:229-315 | for every packet of the family and either chain, the first matching line is the plain policy's decision: loopback passes on the host, then the enabled address rules in order, then nothing more for an address that keeps to its own rules, then the server-wide rules; what the policy is for a packet, PortGuarantees says in terms of the packet itself |
| PortCompiler.SourcesFor | internal/firewall/ports.go:188-203 | the networks of one family that hold exactly the addresses a source list stands for, the keyword included |
| PortCompiler.AddrsFor | internal/firewall/ports.go:318-331 | the same for an address list, where the keyword means nothing |
| PortCompiler.TargetsOf | internal/firewall/ports.go:255-295 | the matches of one rule hit exactly the packets of its protocols and ports at its networks, by original destination where the connection was rewritten |
| PortCompiler.EmitAllow | internal/firewall/ports.go:239-245 | at a target, listed sources return and everyone else's new packets are dropped under the rule's id; other packets go on |
| PortCompiler.EmitDeny | internal/firewall/ports.go:247-253 | at a target, listed sources' packets in the original direction are dropped under the rule's id; all others go on |
| PortCompiler.OwnRulesPart | internal/firewall/ports.go:303-307 | past the address rules, rewritten connections to an address that keeps to its own rules leave the forward chain |
| RuleText.Rule.Validate | internal/firewall/ports.go:85-168 | accepts a rule if and only if every field is well-formed, and leaves it with each field written the one normal way |
| RuleText.AcceptedIff | internal/firewall/ports.go:85-168 | exactly which rules are accepted, field by field in terms of what is entered: identifier, protocol, ports, mode, every source and address, and at most 256 and 64 distinct ones |
| RuleText.AcceptedAs | internal/firewall/ports.go:85-168 | an accepted rule keeps identifier and mode, means the same ports, and has its protocol in lower case, tcp if none was given |
| RuleText.PairReads | internal/firewall/ports.go:68-82 | two numbers with a dash or a colon between them are a range if and only if they are ports in order |
| RuleText.CheckedTwiceIff | internal/firewall/ports.go:84-186 | validating a validated rule changes nothing if and only if the rule as entered names no mapped address with its full length |
| RuleText.ValidatedTwiceExample | internal/firewall/ports.go:125-131 | a rule for ::ffff:1.2.3.4/128 that each of two validations changes |
| RuleText.RangeReadsBack | internal/firewall/ports.go:68-82 | the port text a validated rule has is read as its range |
| RuleText.PortsTextIff | internal/firewall/ports.go:103-111 | validated rules have the same port text if and only if they have the same ports |
| RuleText.GatherFixedIff | internal/firewall/ports.go:115-137 | a list stays as it is if and only if it has no repeats and each entry is read as itself |
| RuleText.GatherIsTidy | internal/firewall/ports.go:115-137 | a validated list holds exactly what its entries are read as, without repeats, and no entry was bad |
| PortModel.NormalTwiceIff | internal/firewall/ports.go:125-131 | writing a network twice changes it if and only if it is a mapped address with its full length |
| PortModel.NormalKeepsNetIff | internal/firewall/ports.go:125-131 | the written network is compiled to the addresses of the entered one if and only if it is not that |
| PortModel.RereadIsNormal | internal/portrules/manager.go:111-115 | what validating a written network again makes of it |
| PortModel.ReadingsAgreeIff | internal/portrules/manager.go:525-533 | compiler and trial test read a network alike if and only if it is not a mapped address without a length |
| PortModel.NetworkHoldsIff | internal/firewall/ports.go:170-177 | a network holds exactly the addresses of its family that agree with it on its length |
| PortModel.FullLength | internal/firewall/ports.go:170-186 | a full length leaves one address, and a longer one is refused |
| PortModel.MappedIff | internal/firewall/ports.go:182 | the addresses that are unmapped are those of ::ffff:0:0/96, and become IPv4 ones |
| PortModel.PrivateRangesAre | internal/firewall/ports.go:64 | the ranges the keyword stands for are the six networks |
| PortModel.PrivateCovers | internal/firewall/ports.go:188-203 | the keyword covers exactly the addresses in one of them |
| PortModel.HitIsFirst | internal/firewall/ports.go:229-231 | the chains are walked to the first line that matches |
| PortGuarantees.OwnRulesOnly | README.md:584-587 | for a connection passed on to an unfollowed address, rewritten or routed, deleting every server-wide rule changes no verdict |
| PortGuarantees.OpenSessionDroppedIff | internal/firewall/ports.go:239-252 | a packet of an open session is dropped if and only if a deny rule that concerns it cuts its source and no allow rule judging it earlier admits that source |
| PortGuarantees.AllAllowSparesOpenSessions | README.md:517-519 | a rule set whose enabled rules all allow never drops a packet that is not new |
| PortGuarantees.DenyCutsOpenSession | internal/firewall/ports.go:246-251 | any enabled server-wide deny rule, alone, drops client packets of open sessions of its sources |
| PortGuarantees.SessionCutExample | internal/firewall/ports.go:246-251 | a concrete rule and packet for which an open session is cut |
| PortGuarantees.LoneRuleDropsIff | internal/firewall/ports.go:229-315 | exactly which first packets a rule by itself drops on the host: enabled, of its protocols (both is TCP and UDP), in its ports, at its addresses if it has any, and from a source that an "only these" rule does not list and is not always allowed, or that an "everyone except" rule lists |
| PortGuarantees.LoneRuleDropsForwardIff | internal/firewall/ports.go:268-307 | the same for what is passed on: rewritten connections by what the client asked for, routed ones to the rule's addresses or those that follow |
| PortGuarantees.BothIsEach | internal/firewall/ports.go:264-267 | in any rule set, making a rule for both protocols one for TCP changes no verdict on TCP, and one for UDP none on UDP |
| PortGuarantees.OtherProtocolsPass | internal/firewall/ports.go:264-267 | nothing but TCP and UDP is ever dropped |
| PortGuarantees.LoopbackPasses | internal/firewall/ports.go:232 | nothing that comes in over the loopback interface is dropped on the host |
| PortGuarantees.WhitelistedPassAllow | internal/firewall/ports.go:239-245 | a rule set of enabled "only these" rules never drops anything from an always-allowed source |
| TrialTest.ReachesHost | internal/portrules/manager.go:521-541 | a rule reaches the server when it has no addresses, no host list is known, or one of its networks, with mapped addresses taken for IPv6, holds a host address |
| TrialTest.Covering | internal/portrules/manager.go:501-512 | the enabled rules, in order, that by that reading can decide who reaches a TCP port of the server |
| TrialTest.RiskyPorts | internal/portrules/manager.go:486-499 | ascending and without repeats, exactly the protected ports that by that reading the new rules restrict and not as the saved ones do |
| TrialTest.OnlyRelevantRisky | internal/portrules/manager.go:501-512 | taking disabled rules and those for UDP out of the saved or of the new set changes no report |
| TrialTest.ReportedIsReached | internal/portrules/manager.go:483-541 | a reported port has an enabled rule among the new ones that is, as compiled, for some TCP packet to that port at an own address |
| TrialTest.RenamedNotRisky | internal/portrules/manager.go:514-516 | nothing is reported for the same rules under other identifiers |
| TrialTest.HarmlessAsCompiled | internal/portrules/manager.go:483-512 | the same of any rules for a port that the new ones do not restrict by the compiler's reading |
| TrialTest.NotRiskySound | internal/portrules/manager.go:483-541 | for rules the test sees and a port without a report, the new compiled chains drop a packet to one of the server's own addresses exactly when the saved ones do, or they let everyone through |
| TrialTest.ReadAlikeIff | internal/portrules/manager.go:521-541 | test and compiler disagree on whether a rule reaches the server if and only if it names one of the server's addresses as a mapped one without a length and the test finds no other |
| TrialTest.PlainIsSeen | internal/portrules/manager.go:521-541 | the test sees every rule set whose enabled rules name no mapped address without a length |
| TrialTest.HiddenRuleExample | internal/portrules/manager.go:526-529 | a rule for ::ffff:203.0.113.5/128 that is not reported, although its compiled chains drop packets to port 22 of the server that nothing dropped before |
| TrialTest.LoadedPolicy | internal/portrules/manager.go:111-115 | rules that are stored and validated again give every packet the verdict they gave before |
| TrialTest.RereadIsTidy | internal/firewall/ports.go:115-137 | a list that is validated again has no repeats |
| TrialTest.LoadedIsSeen | internal/portrules/manager.go:111-115 | and the trial test sees all of them |
| TrialManager.ScopeSplits | internal/portrules/manager.go:178-193 | the scope covers exactly the passed-on addresses, mapped ones as IPv4, each on the side its switch says |
| TrialManager.ScopeIgnoresOrder | internal/portrules/manager.go:178-197 | the same addresses listed in another order are the same scope |
| TrialManager.HostAddrsAre | internal/portrules/manager.go:199-209 | the server's own addresses are exactly those it does not pass on |
| TrialManager.SetAnswers | internal/portrules/manager.go:344-390 | exactly when a set is refused, saved or put on trial, for which ports, and what is saved, stored and active afterwards |
| TrialManager.RefusedRulesGo | internal/portrules/manager.go:393-414 | rules the firewall does not take leave those from before active, and in the kernel if it takes them back |
| TrialManager.ConfirmAnswers | internal/portrules/manager.go:417-430 | a confirmation is kept if and only if a trial runs and the store takes it; then it ends the trial and the active rules are saved and stored; otherwise it changes nothing |
| TrialManager.TrialConfirmed | internal/portrules/manager.go:344-430 | a set that goes on trial and is confirmed, whatever switches, maintenance, flushes and other timers come in between: what was asked is active, saved and stored, a restart loads it, and the trial's timer changes nothing |
| TrialManager.TrialUndone | internal/portrules/manager.go:433-456 | a set that goes on trial and expires or is taken back while the firewall obeys: the rules from before are active and in the kernel, and a restart loads them |
| TrialManager.RevertAnswers | internal/portrules/manager.go:433-441 | a revert is answered with yes if and only if a trial ran and the saved rules went in, or there are none |
| TrialManager.OldTimersAreDead | internal/portrules/manager.go:443-456 | over any run the timer of an earlier trial, however late, leaves a later one alone |
| TrialManager.KernelFollows | internal/portrules/manager.go:145-167 | after any run, a step whose rules the firewall takes leaves the kernel with exactly the active rules under the scope of the moment; maintenance included |
| TrialManager.FlushIsRepaired | internal/portrules/manager.go:145-167 | chains that something else took out are back after the next maintenance |
| TrialManager.KernelNeedsFirewall | internal/portrules/manager.go:344-481 | while the firewall refuses every call, no step changes what the kernel holds |
| TrialManager.RestartAnswers | internal/portrules/manager.go:100-140 | a start takes over what is stored, validated once more, and puts it into force if and only if there are rules and the firewall takes them |
| TrialManager.SwitchTakes | internal/portrules/manager.go:213-249 | a switch is kept if and only if the address is passed on and firewall and store take it; then it is as asked, and all others are as they were |
| TrialManager.StoreIsSaved | internal/portrules/manager.go:344-481 | over any run with readable starts, refused calls and late timers, a restart would load exactly the saved rules, validated once more, and the switches in use if none was thrown while the store refused |
| TrialManager.FollowStoredIff | internal/portrules/manager.go:213-249 | a step parts the switches in use from the stored ones if and only if it turns one over that the firewall takes and the store refuses, or is a start that cannot read switches that were thrown |
| TrialManager.SwitchLostExample | internal/portrules/manager.go:243-245 | a switch that the store refuses is in force and gone after a restart |
| TrialManager.StoreTakesOnlySettledRules | internal/portrules/manager.go:375-430 | the store changes only to a confirmed set, to one the trial test lets pass, or to the saved one |
| TrialManager.UnreadableStart | internal/portrules/manager.go:100-116 | after a start that cannot read the store the first switch that is thrown and stored erases the stored rules |
| TrialManager.StepSteadyIff | internal/portrules/manager.go:344-481 | each step keeps, if and only if it settles: the kernel holds the active rules or none, and with no trial running active rules and kernel guard each protected port, by the compiler's reading, as the saved rules do or not at all |
| TrialManager.SetSteadyIff | internal/portrules/manager.go:344-414 | setting rules that the test lets pass keeps that if and only if they are refused, saved, or harmless by the compiler's reading, and for no rules the chains go or what stays in the kernel is harmless |
| TrialManager.SeenSettles | internal/portrules/manager.go:362-372 | rules that the test sees and lets pass are harmless by the compiler's reading |
| TrialManager.HiddenSetExample | internal/portrules/manager.go:362-372 | a set that closes port 22 of the server through a mapped address is applied and saved at once |
| TrialManager.RunKeepsSteady | internal/portrules/manager.go:344-481 | so does every run whose steps all settle |
| TrialManager.UndoSteadyIff | internal/portrules/manager.go:433-456 | ending a trial keeps that if and only if the firewall takes the saved rules, or with none saved the chains go or are gone, or the trial was harmless; expiring does what reverting does |
| TrialManager.UndoRefusedExample | internal/portrules/manager.go:394-399 | from an unused manager: a first set goes on trial, expires while the removal is refused, and keeps port 22 closed; maintenance does nothing |
| TrialManager.RestartSteadyIff | internal/portrules/manager.go:100-140 | a start keeps it if and only if the saved rules go in again or what the kernel holds does no harm; for an unreadable store too |
| TrialManager.RestartLeavesTrialInKernel | internal/portrules/manager.go:126-128 | with nothing saved, a restart during a trial leaves its chains in the kernel, and neither maintenance nor an empty rule set removes them |
| TrialManager.RunSavesNoRestriction | internal/portrules/manager.go:344-430 | over any run without a confirmation, of sets the test sees, the saved rules come to drop nothing for a protected port at an own address that the first saved ones did not |
| TrialManager.NothingLostUnconfirmed | internal/portrules/manager.go:341-343 | after such a run that settles, with no trial running, the kernel's chains drop no such packet either |
| TrialManager.NeverLockedOut | internal/portrules/manager.go:341-343 | after any run that settles, whatever was confirmed, with no trial running, the kernel's chains drop no packet for a protected port at an own address that the last saved rules would let through |
| TrialManager.Manager.SetRules | internal/portrules/manager.go:344-390 | the step of the machine: refusals, trial or save, and the whole new state |
| TrialManager.Manager.EnforceRules | internal/portrules/manager.go:393-414 | the rules go in, or the previous ones are put back, or the chains are taken out when there were none; each of the three may be refused |
| TrialManager.Manager.ConfirmTrial | internal/portrules/manager.go:417-430 | the active rules are saved, and only then the trial ends: the machine's Confirm step, of which ConfirmAnswers and TrialConfirmed say what it does |
| TrialManager.Manager.RevertTrial | internal/portrules/manager.go:433-441 | the trial ends and the saved rules are enforced again |
| TrialManager.Manager.ExpireTrial | internal/portrules/manager.go:443-456 | a timer of another trial does nothing; its own reverts |
| TrialManager.Manager.FollowAddress | internal/portrules/manager.go:213-249 | the switch of a passed-on address: undone when the firewall refuses, otherwise saved with the saved rules |
| TrialManager.Manager.MaintainRules | internal/portrules/manager.go:145-167 | changed scopes are applied again, removed chains put back: the machine's Maintain step (KernelFollows, FlushIsRepaired) |
| TrialManager.Manager.Start | internal/portrules/manager.go:100-140 | what is stored is validated again and becomes saved, and active once the firewall takes it |
| JumpOrder.Parent.HookPorts | internal/firewall/ports.go:542-564 | the port jump goes right behind the first ban jump, or to the top, unless it is there |
| JumpOrder.Parent.HookBans | internal/firewall/iptables.go:122-162 | the ban jump goes to the very top unless it is there |
| JumpOrder.HookedAt | internal/firewall/iptables.go:122-162 | a hook whose calls are taken leaves the jump at its place among the others, or all as it was when it was there |
| JumpOrder.HooksRestore | internal/firewall/ports.go:542-564 | however a chain came about, one more hook of each kind that is taken leaves both jumps, the ban jump first |
| JumpOrder.RunKeepsBansFirst | internal/firewall/iptables.go:142-162 | over any sequence of both hooks, deletions by anyone and insertions of other people's rules, at most one ban jump exists and it precedes every port jump |
| JumpOrder.BansWin | internal/firewall/ports.go:540-541 | a banned packet's fate never depends on the port rules; it is dropped unless someone else's rule above the jump decides |
| JumpOrder.PortsDecide | internal/firewall/ports.go:540-541 | a packet that is not banned and that no other rule decides gets the port chain's verdict, wherever that hangs |
| JumpOrder.Firewall.Ban | internal/firewall/iptables.go:238-260 | one rule for the address is at the top, unless one was there or a call was refused; before that the chain is hooked into FORWARD if and only if bans cover forwarded traffic |
| JumpOrder.Firewall.Unban | internal/firewall/iptables.go:264-292 | in the ban chain and in INPUT sixteen rules of the address go, or all when there are no more; others stay; none is left if and only if there were at most sixteen in each; done if and only if every call was answered |
| JumpOrder.DeleteSome | internal/firewall/iptables.go:274-287 | the same for one chain, and what is left when a call is refused |
| JumpOrder.UnbanSeventeen | internal/firewall/iptables.go:275 | of seventeen rules for an address one is left |
| Hull.ConvexHull | internal/dashboard/static/assets/topology.js:91-100 | for three or more points: vertices are input points, every input point is on or left of every edge, and unless all are in line the vertices are distinct and every turn is strictly left; for points in line, the two outermost |
| Hull.Half | internal/dashboard/static/assets/topology.js:96-98 | one pass over sorted points leaves a half hull: bent strictly left, over every point, between the ends |
| Hull.PopRight | internal/dashboard/static/assets/topology.js:97 | after the pops the next turn is strictly left and nothing seen so far lies outside |
| Hull.ChainBounds | internal/dashboard/static/assets/topology.js:96-98 | every edge of a half hull has all points on or left of it, not only those above it |
| Hull.HalvesMakeHull | internal/dashboard/static/assets/topology.js:99 | the two halves without their last points make the hull |
| Hull.HalvesApart | internal/dashboard/static/assets/topology.js:99 | inside, the halves share no vertex |
| Recreate.RecreateContainer | internal/containers/docker.go:552-641 | a container that is not there, is paused, was made with --rm or cannot be changed is not touched at any moment; otherwise at every moment the old container exists unchanged in settings and networks or a ready new one does; success leaves a faithful copy with the name and the image reference, on the old one's networks and no others, that runs if and only if the old one did; "put back" means the daemon is as before; not put back means at least two calls were refused; a container that could not be renamed runs again unless its start was refused; other containers are untouched |
| Recreate.Replace | internal/containers/docker.go:594-641 | the same from the moment the old container is set aside |
| Recreate.Restore | internal/containers/docker.go:603-616 | the rollback puts everything back, or one of its own calls was refused too |
| Recreate.PutAside | internal/containers/docker.go:587-602 | stopped and renamed, or as before; only a refused start leaves it stopped; one that does not run is only renamed |
| Recreate.Complete | internal/containers/docker.go:625-635 | the new container joins every other network and starts if the old one ran, or some call was refused |
| Recreate.KeepAnonymousVolumes | internal/containers/docker.go:671-701 | every mounted volume is named in the result; what is added are exactly mounted volumes at places nothing named before |
| Recreate.SplitNetworks | internal/containers/docker.go:705-725 | the network of the mode, else the default bridge, else the first in order; all others except host and none are joined afterwards, in order |
| Recreate.ImageRef | internal/containers/docker.go:646-657 | the tag if the daemon says it still stands for the image the container runs, otherwise that image; the result stands for it either way |
| IncusPorts.SetPorts | internal/containers/incus.go:431-480 | refusals exactly; otherwise the single-port proxies in force are the requested ports, one device each, and all else is unchanged, if and only if the own devices taken out hide nothing but masks; always so when Unshadowing; whatever the order of the devices |
| IncusPorts.NothingUncoveredIff | internal/containers/incus.go:440-456 | nothing comes to light in any order if and only if each own proxy that hides a profile's device is for a requested port that no other device in force serves |
| IncusPorts.ShadowingUncovers | internal/containers/incus.go:448-453 | otherwise there is an order of the devices in which one does |
| IncusPorts.DropUnwanted | internal/containers/incus.go:440-457 | the first proxy met for each requested port stays; the other own ones go and the inherited ones are masked |
| IncusPorts.AddWanting | internal/containers/incus.go:458-477 | one new proxy under an unused name for each port still wanting, unless a host port is not fixed |
| IncusPorts.FreshName | internal/containers/incus.go:460-468 | the search for a name ends with the first of the series that is not taken |
| IncusPorts.NamesAre | internal/containers/incus.go:460-468 | the series of names, to the letter |
| IncusPorts.ReconciledIfNothingUncovered | internal/containers/incus.go:452-456 | masking and deleting reconcile when deleted proxies hid nothing but masks |
| IncusPorts.UncoveredSpoils | internal/containers/incus.go:452-456 | a profile device that comes to light always spoils the result |
| IncusPorts.ShadowRun | internal/containers/incus.go:452-453 | a call that unpublishes a proxy hiding a profile's network card, and leaves the card in its place |
| ProxyText.DeviceReadsBack | internal/containers/incus.go:182-215 | the device written for a valid port is read back as that port, IPv4, IPv6 and unspecified addresses included |
| ProxyText.ReadDeviceIsPort | internal/containers/incus.go:182-205 | whatever device is read has a known protocol, numbers that fit and a canonical address |
| ProxyText.DeviceText | internal/containers/incus.go:207-216 | the text of an address, to the letter |
| ProxyText.MixedProtocolsRefused | internal/containers/incus.go:182-188 | a device whose ends differ in their protocol is no port |
| ProxyText.BracketsAreChecked | internal/containers/incus.go:191-205 | nor is an address whose brackets do not close, or that needs them and has none |
| PortText.ShowDistinguishes | internal/containers/incus.go:436-451 | ports that print the same are the same, so the printed form can stand for the port |
| Versions.VersionReadsBack | internal/update/version.go:35-56 | a printed version is read back as itself, with or without a leading v and whatever build metadata follows it |
| Versions.ParseIgnores | internal/update/version.go:37-40 | a leading v and build metadata never change what a text is read as |
| Versions.ParsedIsPrintable | internal/update/version.go:44-55 | whatever parses has three numbers that fit a machine integer and no build metadata |
| Versions.CompareInOrder | internal/update/version.go:58-89 | on versions with canonical numbers the comparison is antisymmetric and transitive, and what does not parse is below everything |
| Versions.CompareIsPrecedence | internal/update/version.go:58-122 | it is the precedence of section 11 of Semantic Versioning 2.0.0, in both directions |
| Versions.CompareFlipsIff | internal/update/version.go:58-122 | swapping two versions flips the answer if and only if they do not agree up to identifiers that first differ in two spellings of one number |
| Versions.SpellingsExample | internal/update/version.go:97-104 | 1.0.0-01 and 1.0.0-1 are each above the other |
| Versions.Newest | internal/update/github.go:59-89 | a release that is no draft, no pre-release unless those are asked for, and whose tag parses, if and only if there is one, and with canonical tags one that no other such release exceeds; the first of those |
| Versions.NewestIsHighest | internal/update/github.go:57-58 | it is an allowed release that no allowed one exceeds, and there is none only when none is allowed |
| Launcher.Updates.Launch | internal/update/state.go:108-153 | the state left on disk and the version handed over, through its recursion, whichever saves are refused and before whichever pass it is stopped; the next three rows say which version that is |
| Launcher.GoodUpdateRuns | internal/update/state.go:118-132 | a good current version that can run and ranks above the installed binary, by precedence when that is a release and by the time of its file otherwise, is what every start hands over to, and the state stays |
| Launcher.NewerBinaryWins | internal/update/state.go:121-139 | after any run, one that does not rank above it is not handed over to, and is forgotten once that is stored |
| Launcher.HandedOutranks | internal/update/state.go:118-153 | except after too many attempts, whatever a start hands over to ranks above the installed binary |
| Launcher.DiskIsLastTaken | internal/update/state.go:129-150 | after a pass the disk holds the last state whose save was taken, or what it held |
| Launcher.RolledBackIff | internal/update/state.go:156-168 | the previous version is put back if and only if it is good and is not the one that failed |
| Launcher.StartFromSound | internal/update/state.go:104-153 | whichever saves are refused, a start hands over to a version that can run and is good, or to the current one while it has attempts left on disk |
| Launcher.TakenStart | internal/update/state.go:104-153 | with every save taken a start ends, with what it hands over to current on disk, or with nothing staged |
| Launcher.TakenPasses | internal/update/state.go:144-150 | and its recursion is no deeper than there are staged versions |
| Launcher.EveryRunSound | internal/update/state.go:104-167 | over any starts, with any saves refused, updates, good marks and ways back, the previous version is good, stored attempts stay at most three, and an unproven version is handed over to at most three times and once more for each attempt that was not stored |
| Launcher.BadUpdateUndone | internal/update/state.go:129-143 | once it has been handed over to that often, no later start is, whatever is refused |
| Launcher.UncountedExample | internal/update/state.go:142 | a run of four starts handed over to a version that does not stay up, with every save refused |
| Launcher.NewestWinsUnlessOverlooked | internal/update/state.go:118-143 | whichever saves are refused, a start hands over to something older than the installed binary if and only if one of its passes begins where too many attempts put such a version back |
| Launcher.NewestWinsWhenTaken | internal/update/state.go:118-143 | with every save taken, if and only if the first one does |
| Launcher.OverlookedExample | internal/update/state.go:133-143 | a run whose fourth start of a failing update does |
| Launcher.RefusedWritesEndIff | internal/update/state.go:144-150 | with refused writes Launch ends if and only if the version it is left with can run, is replaced or is gone |
| Launcher.StuckExample | internal/update/state.go:144-150 | a run after which it never ends |
| Launcher.Updates.MarkGood | internal/update/state.go:198-206 | the state with the running version marked |
| Launcher.MarkedIff | internal/update/state.go:198-206 | in any run, marking changes the state if and only if that version is current and not good yet, and then only its mark and attempts |
| Launcher.Updates.GoBack | internal/update/manager.go:397-413 | the previous version, or the installed one, becomes current |
| Launcher.BackUndoesApply | internal/update/manager.go:290-302 | in any run, an update that is applied and taken back leaves the version that ran before it, if that was good, otherwise the one before |
| Install.Disk.StageAndApply | internal/update/manager.go:260-307 | after every single step both slots of the stored state have their binary; the state changes only at the end and whole, if and only if every step worked, the two test runs and the backup included; then exactly the releases that are not needed and can be removed are gone |
| Install.Disk.Prune | internal/update/manager.go:368-381 | at every step the named versions keep their binary; in the end exactly the other releases that can be removed are gone |
| ComposeSplice.SortBottomUp | internal/containers/compose.go:224-231 | a permutation in place, lowest change first |
| ComposeSplice.Apply | internal/containers/compose.go:177-242 | the result is all changes applied at once, line by line; the preview lists old and new lines from the top down; the line is the first that changes |
| ComposeSplice.Splice | internal/containers/compose.go:232-242 | the same for changes already sorted |
| ComposeSplice.PreviewAccountsForAll | internal/containers/compose.go:232-242 | the edit loses and gains exactly the lines of the preview |
| PortActions.ApplyPortAction | internal/containers/compose.go:44-73 | the ports it is not about stay in order; the others are each there once at the address asked for, or gone; refused if and only if there are none or the action is unknown |
| PortActions.ActedMeans | internal/containers/compose.go:44-73 | in terms of the ports themselves: every port it is not about stays and no other comes in; the others are published at 127.0.0.1, at all addresses, or no more |
| ComposeText.RewrittenReads | internal/containers/compose.go:434-476 | the rewritten item keeps host port, container port and protocol and has exactly the address asked for, except that a public one whose host part begins with a bracket cannot be read |
| ComposeText.EditSaysWhatWasAsked | internal/containers/compose.go:245-271 | an item found by its port is found again after the edit and publishes where it was asked to |
| ComposeText.RestOfLineStays | internal/containers/compose.go:432-476 | the item as it was written gives way to the quoted new one; the rest of the line stays |
| ComposeText.ShortReads | internal/containers/compose.go:305-337 | an item that is written out is read as what it says, an IPv6 address in brackets included |
| ComposeText.BracketsNeedBoth | internal/containers/compose.go:305-321 | an address in brackets needs both ports behind it |
| ComposeText.MatchesIff | internal/containers/compose.go:341-358 | an item publishes a port if and only if it names it for that protocol, and has no variable |
| ComposeText.HostIPIs | internal/containers/compose.go:390-403 | only no address, 0.0.0.0 and :: are all addresses |
| ComposeText.RewrittenWhereItStands | internal/containers/compose.go:434-476 | an item that can be read and stands on the line as its style says is rewritten |
| ComposeText.NotRewrittenElsewhere | internal/containers/compose.go:434-462 | and no other |
| PortText.PortReadsBack | internal/containers/model.go:33-43 | a valid port is read back from what it prints |
| PortText.RoundTripIff | internal/containers/model.go:169-241 | a list is read back from its joined printed form if and only if it is valid and lists no host port twice |
| PortText.ReadPrintRead | internal/containers/model.go:169-233 | whatever text was read, printing and reading it again changes nothing |
| PortText.ParsePorts | internal/containers/model.go:172-188 | the ports of the fields in order, or the first problem |
| PortText.SeparatedBy | internal/containers/model.go:175 | a comma, a space or the end of a line separates two fields, and nothing else does |
| PortText.TwiceIff | internal/containers/model.go:180-184 | a port is refused as listed twice if and only if its host port is fixed and taken at that address for that protocol |
| RateLimit.FilterInPlace | internal/analysis/ratelimit.go:103-112 | compacting the array in place keeps exactly the later times, in order, and nothing behind them moves |
| RateLimit.RateLimiter.Check | internal/analysis/ratelimit.go:46-75 | admits if and only if the whole history has room in both windows (AdmitsIff); only admitted connections are remembered; every stretch of a minute or an hour stays within its limit |
| RateLimit.AdmitsIff | internal/analysis/ratelimit.go:63-71 | room means fewer admitted connections than the limit in the minute and the hour that end now, or a limit that is not positive |
| RateLimit.RateLimiter.Cleanup | internal/analysis/ratelimit.go:79-100 | forgets what is outside the windows, and no later answer can tell |
| RateLimit.BoundedPush | internal/analysis/ratelimit.go:63-73 | one more admitted connection keeps every half-open stretch within the limit |
| RateLimit.Evicted | internal/analysis/ratelimit.go:60-61 | dropping old times leaves what any later cutoff can see |
| ScanDetector.Detector.RecordPort | internal/analysis/detector.go:57-86 | scanning if and only if enough distinct ports were touched within the window; first if and only if this touch began the burst, for thresholds of two or more |
| ScanDetector.Detector.Cleanup | internal/analysis/detector.go:90-114 | forgets ports outside the window and empty addresses, and no later answer can tell |
| ScanDetector.BurstsAreApart | internal/analysis/detector.go:53-56 | between two touches that began a burst lies one that was not scanning |
| ScanDetector.ForgottenRun | internal/analysis/detector.go:107-109 | with a threshold of one a forgotten address is first again within its burst |
| ScanDetector.AloneAfterForgetting | internal/analysis/detector.go:79-82 | a forgotten address's next touch is not scanning for thresholds of two or more |
| BanMachine.WhitelistedNeverHanded | internal/server/server.go:678-712 | in every run of single calls, however they interleave, a whitelisted address is never handed to the firewall and gets no new rule |
| BanMachine.ReleasedOnlyExpired | internal/server/server.go:399-415 | in every run a row maintenance deletes is expired at that moment and its rule was removed since the bans were listed |
| BanMachine.AutoBanNeedsPoints | internal/server/server.go:669-694 | in every run an automatic ban answers a recorded score that reached its threshold, in new points since the last lift plus what was carried over it; in new points alone when the last reset was taken |
| BanMachine.AutoBanIff | internal/server/server.go:669-694 | in every run a recorded score leads to an automatic ban if and only if those are on, the address is not whitelisted, no active ban is seen, and the new points since the last lift with what was carried over it reach the threshold |
| BanMachine.FewerPointsIff | internal/server/server.go:680-694 | fewer new points than the threshold lead to one if and only if what was carried over makes up the difference, and a taken reset carries nothing |
| BanMachine.RowLasts | internal/storage/bans.go:22-60 | a ban stored with a duration is active until that is over, every other one always |
| BanMachine.ScoreIsJudged | internal/storage/scores.go:37-72 | a scored event adds its points and is up for judgement with the score they lead to |
| BanMachine.MeetPutsBack | internal/server/server.go:557-570 | a banned address that is met and handed over has its rule again |
| BanMachine.UnbanLifts | internal/server/server.go:723-739 | an unban whose calls are taken leaves neither row nor score nor rule |
| BanMachine.ReleaseLifts | internal/server/server.go:403-426 | neither does a release of an expired ban; it goes on to the next, and from there on an automatic ban needs the full threshold in new points |
| BanMachine.RefusedReleaseGoesOn | internal/server/server.go:403-426 | a release that a refused call ends goes on to the next, with the ban as it was |
| BanMachine.RowLeavesIff | internal/storage/bans.go:125-136 | a row leaves the table if and only if it is unbanned, or maintenance deletes it while it is expired |
| BanMachine.StrayIff | internal/server/server.go:399-415 | exactly the three ways a rule comes to be without a row |
| BanMachine.RenewalIff | internal/server/server.go:403-426 | whatever others do before and after maintenance removes a rule, an active row stays, and the rule is there if and only if it was set after the removal, or that was refused and it was there or set before |
| BanMachine.RenewalLosesRuleExample | internal/storage/bans.go:125-126 | a run in which a renewed ban keeps its row and loses its rule |
| BanServer.Server.NowEndsRun | internal/server/server.go:403-738 | the server is always where a run of the machine ends, so the laws of runs hold of it |
| BanServer.Server.BanIP | internal/server/server.go:704-719 | the row is stored, then the rule set; a whitelisted address changes nothing |
| BanServer.Server.UnbanIP | internal/server/server.go:723-739 | the row goes, the score is reset, the rule goes; a rule without a row stays if and only if the firewall refuses |
| BanServer.Server.RecordScore | internal/storage/scores.go:37-72 | the points are added to the address's score and no other |
| BanServer.Server.MaybeAutoBan | internal/server/server.go:680-694 | the answer, row, rule and history of an automatic ban, for every setting and every refused call |
| BanServer.ScoredMeans | internal/server/server.go:669-694 | exactly what a scored event does to row, rule and score of its address |
| BanServer.BannedMeans | internal/server/server.go:680-694 | the answer is yes if and only if a ban is due and one stands: one that was seen, or a new one in table and firewall |
| BanServer.Server.RecordAndMaybeBan | internal/server/server.go:669-676 | where a scored event leaves its address, and that no other changes |
| BanServer.Server.HandleConnection | internal/server/server.go:535-636 | whitelisted connections change nothing; known bans are put back in the firewall; otherwise the check decides row, rule, score and answer; no other address changes |
| BanServer.ChecksMean | internal/server/server.go:560-636 | which checks score, and when a connection is served |
| BanServer.Server.ReleaseExpired | internal/server/server.go:403-426 | exactly the bans expired at the listing are released, each to where its renewals and refused calls leave row, rule and score; no other address changes |
| BanServer.ReleasedScore | internal/server/server.go:418-423 | a release forgets the score if and only if its calls are taken |
| BanServer.ReleasedNeedsAll | internal/server/server.go:418-423 | a ban that falls at the next event then falls for that event's points alone |
| BanServer.RenewalSurvivesIff | internal/server/server.go:403-426 | an active renewal's row survives a release, and its rule does if and only if it came after the removal or that was refused |
| BanServer.ReleaseIsWhole | internal/server/server.go:399-402 | without a renewal a release takes the row if and only if both calls are taken, and then the rule too |
| BanServer.ReleaseStrayIff | internal/server/server.go:399-415 | a release leaves a rule without a row if and only if a renewal after the removal has expired again |
| BanServer.Server.SyncBans | internal/server/server.go:430-452 | for each address exactly: an active ban gets its rule again, a whitelisted one is lifted, expired rows stay |
| BanServer.SyncedMeans | internal/server/server.go:430-452 | after the sync an address has an active ban only if it is not whitelisted or the database refused, and a rule for it unless the firewall did; whatever was no active ban is as before |
| BanServer.RefusedResetRun | internal/server/server.go:418-423 | a ban stored, lifted with a refused reset, and stored again for one new point |

## Left out

- PortCompiler.Compile: takes ports and networks as values, where the program passes their validated text (`RuleText`) and reads it again; the lines are typed matches instead of iptables-restore text, and `PortGuard.Apply` replaces and `Remove` takes out both chains at once or not at all.
- RuleText.Rule.Validate: does not model the name and note, whose cut decides nothing; how a network's text is read and printed is a parameter.
- RuleText.CheckedTwiceIff: assumes that a network's canonical text is read as that network, and leaves out IPv6 zones in addresses, which TrialTest and PortCompiler do not have either.
- TrialTest.RiskyPorts: compares ports by value where the code compares their validated text, of which there is one per value (RuleText.PortsTextIff), and networks as they are written.
- TrialManager.Manager.ScopeFor: sorts the passed-on addresses by family and number instead of by their text; only whether two scopes are equal depends on the order (ScopeIgnoresOrder).
- TrialManager.NeverLockedOut: for the protected ports and own addresses of the server that stay the same over the run, and for addresses that are not passed on if the saved rules were given another scope. Own addresses exclude loopback and link-local ones (internal/portrules/addresses.go:197), so it says nothing of someone who comes in over one of those.
- TrialManager.NothingLostUnconfirmed: the same; and what a run confirms is up to whoever confirmed it.
- RateLimit.RateLimiter.Check: uses the filter as a function; that the filter in place computes it is proved separately on an array (RateLimit.FilterInPlace).
- Recreate.Daemon.Create: stands for the Docker API; container settings other than name, image, host name, networks and volumes are one map that the change may touch, and endpoint settings (fixed addresses, aliases, links) are not modelled.
- Recreate.ImageRef: the check of a reference's spelling is left to the daemon, and an empty image ID does not occur.
- IncusPorts.SetPorts: a device is its port, the mask, or anything else; other settings of a proxy device and the ETag that guards the write are not modelled.
- ComposeSplice.Apply: takes the change list with its line ranges as given; that YAML items on lines of their own do not overlap comes from the YAML library, which is not part of this model, and so is reading the edited file back.
- ComposeText.RewriteScalar: quotes or escapes inside an item are not modelled; the long syntax (`rewriteLong`) is left out.
- PortActions.ApplyPortAction: tells ports apart by value where the code uses their printed form (PortText.ShowDistinguishes), and leaves out the device that holds a port.
- PortText.RoundTrip: reading a host address is a parameter; printed addresses are assumed to hold no separators, spaces or brackets, which leaves out IPv6 zones with such characters.
- Versions.Newest: the download links of a release and the cut of its notes are not modelled.
- Launcher.Updates.Launch: the history and failure events of the state are not modelled; state.json is read and written whole, and a start that cannot read it goes on as the installed version and changes nothing. Its recursion can be stopped before any pass (`limit`), as a process can.
- Launcher.Updates.MarkGood: a refused save leaves the state on disk as it was, which is the run without that event; so does one in Launcher.Updates.GoBack or when an update is applied.
- Install.Disk.StageAndApply: downloading, signatures and the two test runs are answers that may be no.
- BanServer.Server.ReleaseExpired: between its calls only bans of the address being released come in; any other interleaving of single calls is in BanMachine. A reset of a renewed ban's score is not told apart from that of a lifted one.
- BanServer.Server.HandleConnection: the checks between the ban and the handler are one decision (pass, drop, or score); addresses are normalised text.
- JumpOrder.Parent.HookBans: INPUT and FORWARD are one kind of parent chain; Docker's own chain is not modelled, neither here nor in JumpOrder.Firewall.Ban.
- Hull.ConvexHull: coordinates are exact integers; rounding of floating-point coordinates is not modelled.
- Restart during an install by another process, timers' deadlines, rule names and notes, counters, logging, HTTP, SQL, file formats, cryptography and everything the dashboard shows: they decide nothing modelled here.
- Scanners, honeypots, GeoIP, the stealth proxy and the MCP tools: no state shared with what is modelled.
