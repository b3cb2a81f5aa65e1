# rsRPC presence daemon: a Dafny model

rsRPC watches the process table, decides which games run, and tells presence consumers through a bridge.
Games that speak the Discord IPC protocol publish their own cards, and the bridge arbitrates. This project
models the parts of the daemon where state outlives a single call or where a fast form stands in for a
simple one, and proves what they keep.

| file | what it models |
|---|---|
| `Presence`, `Ordering`, `Text`, `Bytes` | shared entities, the standard library's sort, string and byte facts |
| `SnapshotLane`, `LaneRepair` | polls as removals, detections and clears over a lossy channel, with the EXEC fast path beside it |
| `Handoff`, `Replay`, `CacheContents`, `Bridge`, `TrackedCards` | slot ownership, the bounded replay cache and what is in it, the bridge's handlers, and what they keep together |
| `Slots` | what each command and each detection does to slots and cards, in terms of what consumers show |
| `EndToEnd`, `LaneRounds` | lane and bridge composed: from a poll to the cards consumers hold |
| `SkippedPublishes`, `Reaping` | when one left-out command can be noticed, and what an empty process table leaves on display |
| `EagerBridge`, `SkipRuns`, `TwinRuns` | a bridge that broadcasts every command, whole runs of it beside runs of the bridge, and when the two are told apart |
| `AppIdMemo`, `Gauge`, `Shutdown`, `Generations` | the four concurrent protocols, one atomic step at a time |
| `Bundle`, `Matcher`, `BruteForce`, `Classifier` | pattern collection, the automaton tier, the same by brute force, and what answers for a process |
| `PathNames` | which declared names name a path, component by component |
| `Normalizer`, `NameTables` | name normalization and the sorted lookup tables |
| `IpcPump` | one IPC connection: frames, handshake, pid admission, clears at its end |
| `SteamIndex`, `SteamLookup`, `SteamRefresh`, `Vdf` | the incremental library index, which game a path is looked up as, when a refresh equals a rescan, and Valve's text format |
| `ProcEvents`, `ProcWire` | the netlink walk, the watch over datagrams and its loss count, and the datagrams byte by byte |

State that the daemon updates in place is a class whose methods are proved against a step relation or a
function of the old state (`Handoff.HandoffState`, `Bridge.Shared`, `SnapshotLane.ScanThread`,
`IpcPump.Facilitator`, `SteamIndex.SteamLibraries`, `ProcEvents.SeqTracker`, `Generations.Database`,
`AppIdMemo.AppIdCache`, `NameTables.SortedIndex`). Whole runs are sequences of states linked by those
steps, with any interleaving and any outcome of the operating system's answers.

## What does not hold

Some promises in the source's own comments fail. The model keeps the code as it is and says exactly when they
do hold:

- Re-emitting after a shed tick does not repair everything. An event taken before the shed may be for a game that
  is gone (or back) at the next poll; that poll equals the recorded table and is not sent
  (`LaneRepair.ShedLeavesGhost`, `LaneRepair.ShedLosesCard`). `LaneRepair.ShedIsRepairedIff` says exactly when
  the next poll repairs the table, by what the shed poll had handed over.
- The forced emission after an EXEC publication does not clear a game no poll ever saw, with or without a race
  (`LaneRepair.ExecLeavesGhost`, `LaneRepair.ExecLeavesGhostBesideGame`). Such a card goes exactly with an empty
  poll that is sent (`LaneRepair.LeftoverGoesIff`, and over whole runs `LaneRepair.LeftoverPersistsIff`).
- The replay cache forgets a card on display exactly when, at some moment since its publish, fifty newer cards were
  on display at once (`CacheContents.CachedIffNeverCrowded`). A clear for such a card is swallowed
  (`SkippedPublishes.ClearIsSwallowedIff`), and an empty process table does not reap it (`Reaping.GhostStaysIff`).
- Skipping unchanged commands is therefore not invisible. Beside a bridge that broadcasts every command, on the same
  inputs and answers, a run is told apart exactly by a swallowed clear or by an empty table that finds a dead
  process's card crowded out of one cache and not of the other (`SkipRuns.SkipsAreInvisibleIff`). The second happens
  without any clear: `TwinRuns.RepeatTellsApart`. All this is up to the spelling of an absent pid, by which one
  command can also be noticed (`SkippedPublishes.SkipIsInvisibleIff`, `SkippedPublishes.RespellingIsNoticed`).
- A connection that publishes and then offers a handshake that is refused gets no clears
  (`IpcPump.RefusedRehandshakeKeepsCard`); every other end of a connection clears (`IpcPump.HandleStream`).
- An unchanged Steam library spelled with a trailing separator loses its keys when another library changes
  (`SteamRefresh.RefreshLosesLibrary`, `SteamRefresh.OneGameIsLost`). `SteamRefresh.RefreshIsRescanIff` says exactly when a refresh is a rescan.
- A declared name that opens with the launcher mark and a separator is not seen by the automaton on paths without
  doubled separators (`Matcher.NamesAreSeenIff`, `Matcher.UnseenNames`). `BruteForce.TierMissesIffMarked` says
  exactly when the tier misses for that reason.

## Model

| member | source | states |
|---|---|---|
| SnapshotLane.RemovedSlots | crates/rsrpc-detect/src/runtime.rs:283-292 | exactly the recorded pairs the new table lacks, compared as whole pairs |
| SnapshotLane.EventChannel.SendChecked | crates/rsrpc-telemetry/src/lib.rs:187-211 | a capped send from one sender's view: refused at the cap, failing without a receiver, otherwise appended |
| SnapshotLane.SendAll | crates/rsrpc-detect/src/runtime.rs:144-181 | the events accepted before the first refusal are a prefix, in order |
| SnapshotLane.DeliverSnapshot | crates/rsrpc-detect/src/runtime.rs:144-181 | complete exactly when every removal, detection and clear was accepted; otherwise shed or closed, with the accepted prefix queued |
| SnapshotLane.ScanThread.AdvanceSnapshotLane | crates/rsrpc-detect/src/runtime.rs:220-234 | the recorded table moves to the new one if and only if the delivery was complete |
| SnapshotLane.TickEffect | crates/rsrpc-detect/src/runtime.rs:144-181 | a whole poll turns any table into the snapshot plus the pairs the recorded table did not know; an empty poll leaves nothing |
| SnapshotLane.StepKeepsFlightInv | crates/rsrpc-detect/src/runtime.rs:501-519 | at every event of a delivery the receiver holds the poll's own effect so far, up to pairs EXEC published meanwhile |
| SnapshotLane.LaneLaw | crates/rsrpc-detect/src/runtime.rs:144-234 | the lane law over every mix of complete polls, sheds and EXEC publications, at event granularity |
| SnapshotLane.RecordedIsLatestComplete | crates/rsrpc-detect/src/runtime.rs:220-234 | in every run the recorded table is that of the latest poll whose events were all taken |
| SnapshotLane.QuietRunsAgree | crates/rsrpc-detect/src/runtime.rs:898-917 | without sheds and EXEC, receiver and recorded table agree between polls, in every run |
| LaneRepair.TakesAdvance | crates/rsrpc-detect/src/runtime.rs:144-181 | where any run stands after a poll and some of its takes, whatever is received meanwhile; never more takes than events, and none if it is not sent |
| LaneRepair.WholePollIsFullPoll | crates/rsrpc-detect/src/runtime.rs:898-917 | in any run, a poll followed by its takes ends in the poll's whole effect on the state before it |
| LaneRepair.WholePollLeaves | crates/rsrpc-detect/src/runtime.rs:898-917 | of the pairs the recorded table does not know, a poll keeps exactly those it does not list; an empty one that is sent keeps none |
| LaneRepair.LeftoverGoesIff | crates/rsrpc-detect/src/runtime.rs:898-917 | such a pair, not listed, goes if and only if the poll is empty and is sent, which `scan_dirty` or a non-empty recorded table decides |
| LaneRepair.LeftoverPersistsIff | crates/rsrpc-detect/src/runtime.rs:898-917 | in any run, while no recorded table lists it, it stays on display throughout if and only if no clear of an empty table is handed over |
| LaneRepair.ShedIsRepairedIff | crates/rsrpc-detect/src/runtime.rs:220-234 | exactly when the poll after a shed leaves the receiver with its snapshot, in terms of what the shed poll had handed over |
| LaneRepair.ShedLeavesGhost | crates/rsrpc-detect/src/runtime.rs:220-234 | a run, with the queue filled to its cap, whose shed tick is never repaired: a card without a game |
| LaneRepair.ShedLosesCard | crates/rsrpc-detect/src/runtime.rs:220-234 | a run, with the queue filled to its cap, whose shed tick is never repaired: a running game without a card |
| LaneRepair.ExecLeavesGhost | crates/rsrpc-detect/src/runtime.rs:501-519 | a run in which the forced poll is over before the publication lands |
| LaneRepair.ExecLeavesGhostBesideGame | crates/rsrpc-detect/src/runtime.rs:501-519 | a run without any race in which the forced poll does not clear an EXEC publication |
| Handoff.InsertBounded | crates/rsrpc-bridge/src/handoff.rs:167-183 | a full table loses dead entries first, then arbitrary ones (perhaps the new one) until it fits; below the bound nothing is lost, and nothing is ever invented |
| Handoff.HandoffState.NotePublish | crates/rsrpc-bridge/src/handoff.rs:167-183 | with room the publisher owns the slot and everyone else keeps theirs; at the bound entries are only lost |
| Handoff.HandoffState.NoteClear | crates/rsrpc-bridge/src/handoff.rs:187-194 | releases the slot exactly when that pid owns it |
| Handoff.HandoffState.NoteClearPid | crates/rsrpc-bridge/src/handoff.rs:236-242 | releases and lists exactly the slots of that pid, each once |
| Handoff.HandoffState.NoteScan | crates/rsrpc-bridge/src/handoff.rs:213-231 | remembers the detected game within the bound; an empty table forgets all |
| Handoff.HandoffState.NoteRemove | crates/rsrpc-bridge/src/handoff.rs:200-210 | forgets the remembered game only under a matching pid |
| Handoff.OwnershipNeverLies | crates/rsrpc-bridge/src/handoff.rs:165-261 | in every run, under any liveness answers and evictions, a recorded owner made the latest publish for the application and has not cleared it since; at most 64 entries |
| Handoff.OwnerIsUnique | crates/rsrpc-bridge/src/handoff.rs:253-255 | the history determines the owner |
| Handoff.UnboundedTableIsExact | crates/rsrpc-bridge/src/handoff.rs:165-261 | while the bound is not reached the table holds exactly the owners of the history |
| Replay.Oldest | crates/rsrpc-bridge/src/replay.rs:20-33 | an entry with the least sequence number |
| Replay.PruneCache | crates/rsrpc-bridge/src/replay.rs:20-33 | keeps the fifty newest entries and drops only older ones |
| Replay.CacheEntryPid | crates/rsrpc-bridge/src/replay.rs:52-60 | the pid recorded on the payload, else a non-zero numeric socket id |
| Replay.PrintedIsParsed | crates/rsrpc-bridge/src/replay.rs:52-60 | a number printed in decimal is read back exactly if it fits 64 bits |
| Replay.BroadcastKeepsInv | crates/rsrpc-bridge/src/router.rs:377-396 | a broadcast keeps the cache free of clears, within fifty entries, with distinct sequences, and newer than everything it dropped |
| Replay.CacheRefinesView | crates/rsrpc-bridge/src/router.rs:377-396 | in every run the cache is the newest part of the unbounded map of uncleared publications, which is what a continuous consumer shows |
| CacheContents.CachedIffNeverCrowded | crates/rsrpc-bridge/src/router.rs:377-396 | in every run a card on display is cached if and only if at no moment since its publish fifty newer cards were on display at once |
| CacheContents.CacheIsComplete | crates/rsrpc-bridge/src/router.rs:377-396 | with never more than fifty cards on display nothing is dropped |
| CacheContents.LateJoinerCatchesUpIff | crates/rsrpc-bridge/src/bridge.rs:419-429 | replaying the cache, in any order, shows a late joiner what a continuous consumer shows if and only if no card on display was ever crowded out |
| CacheContents.LateJoinerCatchesUp | crates/rsrpc-bridge/src/bridge.rs:419-429 | so it does with never more than fifty cards on display |
| Bridge.Shared.BroadcastActivity | crates/rsrpc-bridge/src/router.rs:377-396 | caches a publish under the next sequence and prunes, forgets a clear |
| Bridge.Shared.OnDetected | crates/rsrpc-bridge/src/bridge.rs:706-766 | remembers the scan; withdraws the card of an owned slot, shows an unowned one once |
| Bridge.Shared.OnRemoved | crates/rsrpc-bridge/src/bridge.rs:767-811 | clears the card and the memory only under the same pid |
| Bridge.Shared.ClearOutstanding | crates/rsrpc-bridge/src/bridge.rs:655-677 | one clear per tracked card, in any order |
| Bridge.Shared.ReapGhosts | crates/rsrpc-bridge/src/bridge.rs:678-704 | clears exactly the cached cards of dead processes |
| Bridge.Shared.OnCleared | crates/rsrpc-bridge/src/bridge.rs:655-705 | an empty table clears every tracked card, then every dead process's card |
| Bridge.Shared.ResumeGeneric | crates/rsrpc-bridge/src/router.rs:356-373 | puts a remembered game's card back and tracks it |
| Bridge.Shared.MoveOwnership | crates/rsrpc-bridge/src/router.rs:142-180 | publishes take the slot; genuine clears give back the application's slot, or all of the pid's |
| Bridge.Shared.ReleaseOwnership | crates/rsrpc-bridge/src/router.rs:206-252 | the released slots are exactly those the clearing pid owned |
| Bridge.Resumable | crates/rsrpc-bridge/src/router.rs:206-252 | of the released slots, the remembered games whose process still runs |
| Bridge.Shared.HandleSetActivity | crates/rsrpc-bridge/src/router.rs:256-351 | one command: ownership moved, released games whose process the probe finds running put back, its own message sent unless unchanged; what this means for slots and cards is in Slots |
| Slots.ClearGivesBack | crates/rsrpc-bridge/src/router.rs:206-252 | a detected card comes back: after a clear by the owning pid (of one application, or of all it owns) the slot is free, and the remembered game, if the probe finds it running, is tracked under its pid and its card is on display; no other application's slot, card or tracked pid changes (with room for 64) |
| Slots.PublishTakesSlot | crates/rsrpc-bridge/src/router.rs:142-180 | a publish naming an application makes its pid the owner, with room; its content is on display; detected cards, tracked pids and remembered games stay |
| Slots.DetectionShows | crates/rsrpc-bridge/src/bridge.rs:706-766 | a detection shows the game's card if no game connection owns the slot and no card is tracked, withdraws a tracked card of an owned slot, and leaves every other card |
| Slots.RemovalShows | crates/rsrpc-bridge/src/bridge.rs:767-811 | a removal takes the card and the remembered game exactly under the pid they are recorded with |
| TrackedCards.StepKeepsInv | crates/rsrpc-bridge/src/bridge.rs:655-811 | every handler keeps: a tracked application's card is on display under the tracked pid |
| TrackedCards.TrackedCardsHold | crates/rsrpc-bridge/src/bridge.rs:655-811 | over all interleavings of scanner events and game commands, a tracked pid means consumers show that card with that pid, and a removal naming another pid changes nothing |
| TrackedCards.CardsAreExact | crates/rsrpc-bridge/src/bridge.rs:655-811 | with fewer than 64 applications ever detected, consumers show a detected card if and only if it is tracked |
| EndToEnd.TrackedRowsAreAnnounced | crates/rsrpc-bridge/src/bridge.rs:655-811 | in every run, tracked cards are rows of the table the consumed events spell out |
| EndToEnd.BatchOutcome | crates/rsrpc-bridge/src/bridge.rs:655-811 | a drained batch leaves exactly the snapshot's applications without an owner, each under one of its pids |
| EndToEnd.DrainedBatchShowsSnapshot | crates/rsrpc-detect/src/runtime.rs:144-292 | the same over every run of complete polls without EXEC: the tracked cards are the snapshot's unowned applications, and a consumer that received everything shows each under that pid |
| EndToEnd.ConsumersShowSnapshot | crates/rsrpc-detect/src/runtime.rs:144-292 | with fewer than 64 applications ever detected, consumers then show a detected card if and only if the snapshot lists the application and no game connection owns it |
| LaneRounds.QuietRunHandsPolls | crates/rsrpc-detect/src/runtime.rs:144-234 | a lane run without sheds and EXEC has handed over the events of the polls it completed, each against the table of the one before, and some of the poll under way |
| LaneRounds.RoundsAreLaneRuns | crates/rsrpc-detect/src/runtime.rs:144-234 | between polls those are the events the bridge consumes in the rounds of the same polls, and the recorded table is the next round's |
| SkippedPublishes.ChangedIffChanges | crates/rsrpc-bridge/src/router.rs:184-199 | the cache test of a command, told from the messages sent alone |
| SkippedPublishes.SkipIsInvisibleIff | crates/rsrpc-bridge/src/router.rs:184-199 | exactly when leaving out what the bridge leaves out changes nothing a consumer shows: no clear for a crowded-out card, no respelled pid |
| SkippedPublishes.RespellingIsNoticed | crates/rsrpc-bridge/src/router.rs:184-199 | an absent pid repeated as 0 is skipped and noticed |
| SkippedPublishes.FreshCrowdedIff | crates/rsrpc-bridge/src/replay.rs:20-33 | among publishers on fresh sockets a card is crowded out exactly when fifty have followed it |
| SkippedPublishes.LastFiftyAreCached | crates/rsrpc-bridge/src/replay.rs:20-33 | so all their cards are on display and exactly the last fifty are cached; the 51st evicts the first |
| SkippedPublishes.ClearIsSwallowedIff | crates/rsrpc-bridge/src/router.rs:184-199 | a clear leaves its card on display if and only if the card was crowded out |
| Reaping.ClearedShows | crates/rsrpc-bridge/src/bridge.rs:655-705 | an empty table takes off display exactly the tracked cards and the cards of dead processes that were not crowded out |
| Reaping.GhostStaysIff | crates/rsrpc-bridge/src/bridge.rs:678-704 | a dead process's card outlives an empty table if and only if it was crowded out |
| EagerBridge.StepFactors | crates/rsrpc-bridge/src/router.rs:256-351 | a step of the bridge is exactly a move of the tables, which needs no cache, and what is sent with the skip |
| SkipRuns.TwinStep | crates/rsrpc-bridge/src/router.rs:256-351 | one input keeps the bridge and one that broadcasts every command alike to consumers exactly when it does not tell them apart |
| SkipRuns.SkipsAreInvisibleIff | crates/rsrpc-bridge/src/router.rs:256-351 | over every run, any flood-guard verdicts and any answers, consumers show throughout what they would of a bridge that broadcasts every command, up to the spelling of an absent pid, if and only if no clear comes for a crowded-out card and no empty table finds a dead process's card crowded out of exactly one of the two caches |
| SkipRuns.SkipsAreInvisible | crates/rsrpc-bridge/src/router.rs:256-351 | so it is in every run with at most fifty cards on display, empty tables and reaping included |
| SkipRuns.SkipsAreInvisibleExactly | crates/rsrpc-bridge/src/router.rs:256-351 | exactly the same view when commands say their pid |
| TwinRuns.EveryRunHasTwin | crates/rsrpc-bridge/src/router.rs:256-351 | every run of the bridge has such a run beside it |
| TwinRuns.TwinIsRun | crates/rsrpc-bridge/src/router.rs:256-351 | and the first of the two is always a run of the bridge |
| TwinRuns.RepeatTellsApart | crates/rsrpc-bridge/src/bridge.rs:678-704 | fifty games publish, the first repeats itself, a fifty-first publishes, the table empties with the first dead: its card stays, and goes with the other bridge; no clear command comes |
| TwinRuns.RepeatRunExists | crates/rsrpc-bridge/src/bridge.rs:678-704 | such a run exists |
| AppIdMemo.AppIdCache.Lookup | crates/rsrpc-detect/src/cache.rs:46-64 | a verified memo answers; otherwise the sequence to compare later |
| AppIdMemo.AppIdCache.Store | crates/rsrpc-detect/src/cache.rs:65-84 | the read is stored only if the entry still carries that sequence, or is still missing |
| AppIdMemo.AppIdCache.SweepDead | crates/rsrpc-detect/src/cache.rs:96-114 | exactly the live pids keep their memo |
| AppIdMemo.AppIdCache.DropAppId | crates/rsrpc-detect/src/cache.rs:121-134 | leaves a stale entry with the next sequence, creating one if need be |
| AppIdMemo.ActionKeepsReads | crates/rsrpc-detect/src/cache.rs:46-134 | an entry being read runs ahead of the remembered sequence by exactly the drops since |
| AppIdMemo.MemosAreFresh | crates/rsrpc-detect/src/cache.rs:46-134 | in every interleaving of the two threads a stored memo comes from a read begun after the latest drop |
| AppIdMemo.StaleStoreIff | crates/rsrpc-detect/src/cache.rs:65-84 | a finishing read breaks that only if a positive multiple of 2^64 drops overtook it |
| Gauge.StepMovesTotal | crates/rsrpc-telemetry/src/lib.rs:81-95 | every atomic step moves the counter exactly as it moves what is to be counted |
| Gauge.GaugeCounts | crates/rsrpc-telemetry/src/lib.rs:153-264 | in every interleaving of any number of senders the gauge counts queued, reserved, rolling back, unreleased and discarded values, and values are received in the order accepted |
| Gauge.GaugeIsExactAndBounded | crates/rsrpc-telemetry/src/lib.rs:187-211 | with capped sends only the gauge is exact, never wraps, and neither it nor the queue exceeds the cap |
| Gauge.RefusedOnlyWhenFull | crates/rsrpc-telemetry/src/lib.rs:81-95 | a call is turned away exactly when that many slots really are taken |
| Gauge.GoneMeansClosed | crates/rsrpc-telemetry/src/lib.rs:187-211 | in every run, once the receiver is gone no call reports a send or a shed and nothing more is counted as dropped |
| Shutdown.OwnStepKeepsInv | crates/rsrpc-detect/src/runtime.rs:774-957 | a worker the signal has passed holds a permit wherever it can reach a park without a check |
| Shutdown.SignalStepKeepsInv | crates/rsrpc-detect/src/runtime.rs:330-351 | so does every step of the signal, under the registry lock |
| Shutdown.NoLostWakeup | crates/rsrpc-detect/src/runtime.rs:327-338 | once the signal is through no worker is parked without a permit, in any interleaving |
| Shutdown.NeverStuck | crates/rsrpc-detect/src/runtime.rs:666-735 | then every worker that has not exited can move without waiting for a timeout |
| Shutdown.StepsApproachExit | crates/rsrpc-detect/src/runtime.rs:552-597 | with the flag up each of a worker's own steps brings it nearer its exit |
| Shutdown.WorkersExit | crates/rsrpc-detect/src/runtime.rs:552-957 | by its third own step it has exited, whatever the others do |
| Bundle.Forward | crates/rsrpc-detect/src/bundle.rs:542-554 | a declared name as a pattern always begins with a separator |
| Bundle.CollectSplitPatterns | crates/rsrpc-detect/src/bundle.rs:374-419 | one walk collects, in order, exactly the platform's and exactly Proton's executables, each pattern with the pair that leads back to it |
| Bundle.BuildPatterns | crates/rsrpc-detect/src/bundle.rs:492-526 | the same for user overrides, where no platform tag is refused |
| Bundle.BuildGeneration | crates/rsrpc-detect/src/bundle.rs:434-488 | all three automata of a generation are well indexed |
| Bundle.WellIndexedIsUnique | crates/rsrpc-detect/src/bundle.rs:374-419 | the tables are determined by the lists |
| Bundle.HeldIff | crates/rsrpc-detect/src/bundle.rs:374-526 | exactly which executables an automaton holds, platform by platform and tag by tag; launchers and names of no file are in none |
| Bundle.DroppedIff | crates/rsrpc-detect/src/bundle.rs:513-519 | the names dropped are exactly the empty one, a lone separator and a bare launcher mark |
| Bundle.TiersAreDisjoint | crates/rsrpc-detect/src/bundle.rs:364-374 | no executable is in both automata of the public database, on any platform |
| Matcher.RemoveMarker | crates/rsrpc-detect/src/bundle.rs:332-340 | cutting at each find is stripping one character at a time |
| Matcher.PathVariantsInto | crates/rsrpc-detect/src/bundle.rs:302-323 | the slots hold the variants in the order of the markers |
| Matcher.VariantsAreListed | crates/rsrpc-detect/src/bundle.rs:302-323 | which are exactly the path and its stripped forms, each once, the path first |
| Matcher.VariantsStayAbsolute | crates/rsrpc-detect/src/bundle.rs:302-323 | stripping keeps an absolute path absolute |
| PathNames.NamesPathIff | crates/rsrpc-detect/src/scan.rs:677-760 | for every path and declared name: the name names the path if and only if its components are the path's last ones up to ASCII case, or it ends in `.app` and its components stand anywhere in the path with a component `contents` and a further one behind them; a separator the name begins with has to be there |
| PathNames.PlainNameIff | crates/rsrpc-detect/src/scan.rs:677-713 | a name without separators that is no bundle: if and only if it is the text behind the path's last separator, up to ASCII case |
| PathNames.AppNameIff | crates/rsrpc-detect/src/scan.rs:715-767 | a bundle's name: if and only if it is the last component, or one that `contents` and a further component follow |
| PathNames.EqFoldIff | crates/rsrpc-detect/src/scan.rs:691-705 | the comparison is equality up to the case of ASCII letters |
| PathNames.Components | crates/rsrpc-detect/src/scan.rs:677-713 | every path is its components, none holding a separator, joined |
| Matcher.NamesAreSeen | crates/rsrpc-detect/src/scan.rs:677-760 | on an absolute path every name that names it has its pattern in it, unless the mark precedes a separator |
| Matcher.NamesAreSeenIff | crates/rsrpc-detect/src/scan.rs:677-760 | on an absolute path without doubled separators, of the names that name it exactly the marked ones have no pattern in it |
| Matcher.UnseenNames | crates/rsrpc-detect/src/scan.rs:677-713 | both exceptions occur |
| Matcher.Probe | crates/rsrpc-detect/src/scan.rs:1060-1125 | the hits are exactly the eligible executables whose name occurs in the variant, in the order the search found them |
| Matcher.FirstHitNamingPath | crates/rsrpc-detect/src/scan.rs:821-846 | the first reported executable that names the variant; otherwise none does, and a refusal means some were reported |
| Matcher.FirstNamingWins | crates/rsrpc-detect/src/scan.rs:1060-1125 | it is one whose pattern starts last in the variant, of all eligible executables that name it |
| Matcher.ProbePass | crates/rsrpc-detect/src/scan.rs:1165-1188 | one automaton over all variants: the winner of the first named variant, or a refusal or miss, with what each means |
| Matcher.ProbeVariants | crates/rsrpc-detect/src/scan.rs:1142-1194 | main before overrides over all variants; the hit is the winner of the first variant that is named (by components: `PathNames.NamesPathIff`); a refusal is remembered across automata |
| BruteForce.AutomatonTierIsBruteForce | crates/rsrpc-detect/src/scan.rs:677-846 | on every absolute path, without marked names, the tier equals a search by hand over variants and eligible executables, in hits, winner, refusals and precedence; which names name a variant is said component by component in `PathNames.NamesPathIff` |
| BruteForce.TierMissesIffMarked | crates/rsrpc-detect/src/scan.rs:677-846 | for any database, on paths without doubled separators, there is no hit if and only if every eligible executable that names the path is marked before a separator |
| Classifier.ProcessPath | crates/rsrpc-detect/src/scan.rs:1214-1226 | the probed path is always absolute |
| Classifier.NativeProbes | crates/rsrpc-detect/src/scan.rs:1275-1317 | a winner exactly when the path, or else the path rebuilt from the working directory, is named, and then the winner of that one; refused exactly when a pattern occurs in something probed and nothing is named |
| Classifier.PastTheStoreId | crates/rsrpc-detect/src/scan.rs:1407-1473 | Proton's winner decides if its path is named; otherwise the install directory and then the name answer exactly over silence of all patterns |
| Classifier.MatchProcess | crates/rsrpc-detect/src/scan.rs:1205-1484 | exactly what answers, case by case: a named path by its winner, else the rebuilt path by its winner, else a store id, else a shortcut's name over native silence, else Proton's winner, else the install directory and then the name, over silence of all patterns only |
| Classifier.AnsweredIfSurvives | crates/rsrpc-detect/src/scan.rs:1275-1317 | where a winner decides, its source answers if every winner survives the later checks, and nothing answers if none does |
| Classifier.ProbedPath | crates/rsrpc-detect/src/scan.rs:1214-1226 | an absolute path in `/` is probed as it is, a relative one behind a `/`, and separators of either kind alike |
| Classifier.JoinedPath | crates/rsrpc-detect/src/scan.rs:1275-1317 | a bare file name, and nothing else, is also looked for below the working directory |
| Normalizer.JoinInto | crates/rsrpc-detect/src/scan.rs:421-434 | the reuse-buffer loop is joining words with one space |
| Normalizer.NormalizeLoweredInto | crates/rsrpc-detect/src/scan.rs:421-434 | the lookup side collapses separators |
| Normalizer.NormalizeLoweredDedottedInto | crates/rsrpc-detect/src/scan.rs:439-452 | the de-dotted lookup side collapses separators and dots |
| Normalizer.NormalizersAgree | crates/rsrpc-detect/src/scan.rs:369-434 | key side and lookup side agree on every string |
| Normalizer.KeysAgreeIff | crates/rsrpc-detect/src/scan.rs:369-380 | two names share a key if and only if they are the same words up to ASCII case |
| Normalizer.DedotIsCollapse | crates/rsrpc-detect/src/bundle.rs:265-271 | de-dotting is collapsing spaces and dots |
| Normalizer.DedotCommutes | crates/rsrpc-detect/src/scan.rs:439-452 | de-dotting a key is the de-dotted lookup form of the name |
| NameTables.Dedup | crates/rsrpc-detect/src/bundle.rs:39-49 | strictly ascending keys, each answering as before |
| NameTables.SortedIndex.constructor | crates/rsrpc-detect/src/bundle.rs:39-49 | every key answers with the first row inserted under it |
| NameTables.SortedIndex.Get | crates/rsrpc-detect/src/bundle.rs:54-63 | binary search finds what a linear search finds |
| NameTables.SortAnswers | crates/rsrpc-detect/src/bundle.rs:39-49 | a stable sort changes no first answer |
| NameTables.CollectNames | crates/rsrpc-detect/src/bundle.rs:245-260 | every key answers with the lowest entry whose matchable name or alias normalizes to it |
| NameTables.UndottedNames | crates/rsrpc-detect/src/bundle.rs:277-292 | the twin answers with the lowest index among dotted keys that de-dot to the key |
| NameTables.TwinAnswersLowest | crates/rsrpc-detect/src/bundle.rs:277-292 | which is the lowest entry with such a title, looked up by the title's own lookup form |
| IpcPump.Receive | crates/rsrpc-transport-ipc/src/frame.rs:262-334 | a packet is read forward and within the stream |
| IpcPump.FrameRoundTrip | crates/rsrpc-transport-ipc/src/frame.rs:181-187 | a frame read back is the frame encoded, anywhere in a stream |
| IpcPump.WireIsReceived | crates/rsrpc-transport-ipc/src/frame.rs:262-334 | what each header spells byte by byte: the five types, unknown ones, the size with its lowest byte first, and the cap |
| IpcPump.AdmitPid | crates/rsrpc-transport-ipc/src/frame.rs:113-124 | known pids become newest, new ones fit only with room, nothing else is lost |
| IpcPump.TrackPid | crates/rsrpc-transport-ipc/src/frame.rs:134-139 | behind a successful admission nothing is evicted; otherwise the oldest is |
| IpcPump.AdmittedStays | crates/rsrpc-transport-ipc/src/frame.rs:113-124 | an admitted pid stays admitted |
| IpcPump.Facilitator.ClearPids | crates/rsrpc-transport-ipc/src/frame.rs:145-151 | the tracked pids and the current one, each once |
| IpcPump.Facilitator.LoseConnection | crates/rsrpc-transport-ipc/src/frame.rs:262-334 | one clear for each of them |
| IpcPump.Facilitator.OnHandshake | crates/rsrpc-transport-ipc/src/frame.rs:368-395 | refused exactly for a wrong version or an empty id |
| IpcPump.Facilitator.HandleSetActivity | crates/rsrpc-transport-ipc/src/frame.rs:543-616 | forwarded exactly when its pid is among the first sixteen distinct ones |
| IpcPump.Facilitator.OnFrame | crates/rsrpc-transport-ipc/src/frame.rs:442-540 | publishes only past the handshake and only with arguments |
| IpcPump.Facilitator.OnClose | crates/rsrpc-transport-ipc/src/frame.rs:399-431 | one clear per pid, the current one with its identity, then a reset |
| IpcPump.HandleStream | crates/rsrpc-transport-ipc/src/frame.rs:254-365 | for every byte stream: the forwarded publishes of the conversation, then the clears its end calls for; each forwarded pid is cleared exactly once, or never when the end is a refused handshake |
| IpcPump.ForwardedPidsAreCleared | crates/rsrpc-transport-ipc/src/frame.rs:254-365 | the count behind it, for any log of that form |
| IpcPump.RefusedRehandshakeKeepsCard | crates/rsrpc-transport-ipc/src/frame.rs:368-395 | the streams, frame by frame, after which a published card is never cleared |
| SteamRefresh.PrefixIsRootIff | crates/rsrpc-steam/src/lib.rs:706-719 | a library's prefix is where its keys begin exactly when its path has no trailing separator |
| SteamIndex.ScanLibraryInto | crates/rsrpc-steam/src/lib.rs:650-700 | scanning adds what the map does not have, up to the entry cap; what can then be looked up is in SteamLookup |
| SteamRefresh.ScanIsOwn | crates/rsrpc-steam/src/lib.rs:650-700 | every key a scan makes lies below the library's root, and below its prefix exactly when the path is tidy |
| SteamRefresh.KeptIsContentsIff | crates/rsrpc-steam/src/lib.rs:579-591 | the cached keys below a prefix are the library's scan if and only if its path is tidy or the scan is empty |
| SteamIndex.SteamLibraries.CopyOwned | crates/rsrpc-steam/src/lib.rs:579-591 | copies exactly the keys below the prefix |
| SteamIndex.SteamLibraries.AddLibrary | crates/rsrpc-steam/src/lib.rs:578-602 | an unchanged library contributes its cached keys, any other a scan that does not override |
| SteamIndex.SteamLibraries.Rebuild | crates/rsrpc-steam/src/lib.rs:570-604 | library by library; changed exactly when one of them is gone, new or different |
| SteamRefresh.RebuiltIsUnion | crates/rsrpc-steam/src/lib.rs:570-604 | the rebuild is the union of what it takes of each live library, no two of which share a key |
| SteamIndex.SteamLibraries.RefreshIfStale | crates/rsrpc-steam/src/lib.rs:490-610 | the fast path, the rebuild and the equal-size shortcut as one function of the old index, on every input |
| SteamRefresh.RefreshIsRescanIff | crates/rsrpc-steam/src/lib.rs:490-610 | starting from an exact index, the refresh ends in the union of fresh scans if and only if nothing was to be done or no unchanged, non-empty library is spelled with a trailing separator |
| SteamRefresh.RefreshIsRescan | crates/rsrpc-steam/src/lib.rs:490-610 | so among tidy libraries incremental refresh equals a full rescan |
| SteamRefresh.RefreshLosesLibrary | crates/rsrpc-steam/src/lib.rs:579-591 | a refresh after which the index is not exact: an unchanged untidy library beside a changed one |
| SteamRefresh.OneGameIsLost | crates/rsrpc-steam/src/lib.rs:579-591 | one such refresh in full: `/a/` with one game beside an empty `/b` that changes; exact before, not after |
| SteamRefresh.SameLibraries | crates/rsrpc-steam/src/lib.rs:556-569 | as many libraries with known fingerprints are the known libraries |
| SteamIndex.MatchPrefix | crates/rsrpc-steam/src/lib.rs:625-636 | the one longest key that is a prefix of the path, in any order of the map |
| SteamLookup.LookupIsGame | crates/rsrpc-steam/src/lib.rs:625-700 | after a fresh scan, exactly what any path is looked up as: nothing if it lies in no directory of the first 4096 entries, otherwise the id of the entry with the deepest one, the first listed |
| SteamLookup.FileIsFound | crates/rsrpc-steam/src/lib.rs:256-266 | a file below `steamapps/common/<installdir>/` or `steamapps/compatdata/<id>/`, in any case and with either separator, is looked up as that application, unless an earlier entry has the directory or a deeper one holds the file |
| SteamLookup.NothingIff | crates/rsrpc-steam/src/lib.rs:625-700 | a path in canonical spelling is looked up as nothing if and only if it is written below no entry's directory |
| Vdf.Tokenize | crates/rsrpc-steam/src/lib.rs:61-122 | the loop computes the recursive reading, on every input |
| Vdf.ParseVdf | crates/rsrpc-steam/src/lib.rs:131-172 | the explicit stack computes what a recursive parser computes, on every token sequence |
| Vdf.ParseVdfStr | crates/rsrpc-steam/src/lib.rs:176-185 | tokenizing and parsing are total |
| Vdf.TokensAreCapped | crates/rsrpc-steam/src/lib.rs:61-122 | never more tokens than the cap |
| Vdf.FieldsParse | crates/rsrpc-steam/src/lib.rs:131-172 | the tokens of a document parse to it, anywhere in a token sequence and at any depth within the cap |
| Vdf.FieldsTokenize | crates/rsrpc-steam/src/lib.rs:61-122 | the printed form tokenizes to them |
| Vdf.ParseInvertsPrint | crates/rsrpc-steam/src/lib.rs:61-185 | parsing inverts the canonical printer within the caps |
| Vdf.BareBraceMisparses | crates/rsrpc-steam/src/lib.rs:52-60 | a bare brace in a value is read as structure |
| ProcEvents.MessageAt | crates/rsrpc-proc-events/src/lib.rs:112-128 | each message lies within the buffer and the walk moves forward |
| ProcEvents.ForwardProcEvents | crates/rsrpc-proc-events/src/lib.rs:112-200 | every visit is noted and every lifecycle event offered in order until one finds the receiver gone, on any bytes |
| ProcWire.MessageReadsBack | crates/rsrpc-proc-events/src/lib.rs:112-128 | a message laid out byte by byte reads back wherever it stands |
| ProcWire.DatagramIsWalked | crates/rsrpc-proc-events/src/lib.rs:112-162 | a datagram of such messages is walked to its end, whatever precedes and follows it |
| ProcWire.LifecycleEventsAreForwarded | crates/rsrpc-proc-events/src/lib.rs:179-221 | of any datagram of notices that carry their own kind, exactly the EXEC notices are forwarded as starts and the EXIT notices as ends, each with its pid, in order, up to where the walk stops |
| ProcWire.NoticeIsForwarded | crates/rsrpc-proc-events/src/lib.rs:179-221 | one notice with kind `0x2` is a start, with `0x80000000` an end, with any other nothing |
| ProcEvents.SeqTracker.Note | crates/rsrpc-proc-events/src/lib.rs:246-273 | one observation anchors, counts a forward jump or re-anchors |
| ProcEvents.CountedIffSmall | crates/rsrpc-proc-events/src/lib.rs:258-270 | a gap is counted exactly if and only if it is below 2^31 |
| ProcEvents.MissedIsSkipped | crates/rsrpc-proc-events/src/lib.rs:240-280 | over any sequence of visits the total missed is the number of counter values skipped on all CPUs, across wrap-around |
| ProcEvents.NotedJoins | crates/rsrpc-proc-events/src/lib.rs:240-280 | noting one datagram after another is noting all of their visits |
| ProcEvents.ReceivedAllIff | crates/rsrpc-proc-events/src/lib.rs:643-660 | the receiver has all that was offered if and only if nothing was shed |
| ProcEvents.Watch | crates/rsrpc-proc-events/src/lib.rs:591-660 | over a whole watch every lifecycle event is offered in order up to the first that finds the receiver gone; received are exactly those not shed; while the receiver stays the losses counted are those that happened |
| Generations.Database.EditCustom | crates/rsrpc-detect/src/database.rs:23-46 | an edit rebuilds from the current lists; a failing build keeps the generation |
| Generations.Database.UpdateMainDetectables | crates/rsrpc-detect/src/database.rs:54-116 | swaps exactly for a non-empty update that builds, keeping the overrides |
| Generations.Database.AppendDetectables | crates/rsrpc-detect/src/database.rs:120-136 | appended overrides join the current ones |
| Generations.Database.RemoveDetectableByName | crates/rsrpc-detect/src/database.rs:139-150 | exactly the overrides of that name go |
| Generations.WithoutJoins | crates/rsrpc-detect/src/database.rs:139-150 | what is left of the overrides keeps its order and its repetitions |
| Generations.StepKeepsObserved | crates/rsrpc-detect/src/database.rs:23-116 | what a reader observed stays the outcome of a prefix of the edits |
| Generations.NoUpdateIsLost | crates/rsrpc-detect/src/database.rs:23-150 | in any interleaving of writers and lock-free readers the current lists are the accepted edits in lock order, and every observed generation is well indexed |

## Left out

- Payload encoding: JSON and MessagePack builds are taken to succeed, so the bridge's "unencodable" branches do not occur.
- Locking inside the bridge: each handler is one step; interleavings inside a handler between its lock sections are not modelled.
- Socket ids: application ids and pids are kept apart as two kinds, where the daemon renders both as text; a numeric application id equal to a pid is not modelled.
- Flood guard, fingerprint hashing and the event sink's shedding: the guard's verdict is an input, two activities are equal when their content is, and the sink takes every command.
- Memory ordering: atomics are sequentially consistent, as the channel's own synchronization makes them for the values they guard.
- Gauge: a step machine on values rather than a class; the compare-and-swap loop interleaves with other threads, which a method cannot show.
- Shutdown: a step machine on values; blocking calls of the workers end eventually, and a second concurrent signal only adds permits and the flag.
- AppIdMemo: the methods are the lock sections; reading an environ between them, and the table's capacity trimming, are not modelled.
- Generations: interleavings are a step machine on values; pointer sharing and memory trimming are not modelled.
- Handoff: eviction picks entries arbitrarily, as the hash map's order does; liveness is an input.
- Matcher: strings are sequences of characters; the daemon compares bytes, which agrees because UTF-8 is self-synchronizing and only ASCII is folded. Aho-Corasick is any search that reports all occurrences ordered by their end.
- Bundle: the store-id map is not modelled, nor is the automaton builder's own failure, which Generations takes as an input.
- Classifier: the store-id lookup, the name and folder lookup, exclusions, suspension and argument checks are inputs.
- SteamIndex: directory listings, modification times, root discovery, mount probing and the on-disk cache are not modelled; fingerprints are taken to determine contents, and one refresh sees one state of the disk.
- Vdf: the printer separates fields by single spaces and keeps the last of equal keys, where the daemon has no printer.
- IpcPump: replies, user payloads and nonces are not modelled; message decoding is an input. A read error inside a body and an invalid body end the connection alike.
- ProcEvents: the socket, subscribing and the self-test are not modelled; what each receive brings, and what the receiver's channel answers to each event, are inputs.
- EndToEnd: the composed result is for polls delivered whole; what sheds and EXEC do to the lane is stated in SnapshotLane and LaneRepair. The bridge may lag behind the channel.
- WebSocket servers, consumer fan-out, self-update, database parsing and configuration are outside this model.
