# tt-ledger: a verified model

tt-ledger keeps a brokerage ledger: it re-syncs transactions, rebuilds positions from them,
gathers them into trade groups and follows each group from entry to exit. This project models
the parts that decide what the ledger says and proves what they promise.

Run `dafny verify dfyconfig.toml` to check it.

- **Position accounting** (`Replay`, `ReducedWalks`, `Settlements`): the weighted-average lot machine with its
  scale-ins, partial and full closes, flips through zero and clamped settlements, as an
  imperative walk proved against a step function; the accounting identity over every history; and
  exactly when the two reduced walks agree with it.
- **Lifecycles and rebuild** (`Lifecycles`, `Rebuild`, `RebuildOrder`, `RebuildLinks`, `PositionStore`): when closed lifecycles
  collide on their natural key, what a lapse leaves out of its closed row, and that rebuilding
  twice is rebuilding once, over tables updated in place.
- **Group nets** (`GroupNet`, `Conservation`): the clamped walk of a trade group, its peaks,
  closing causes and detectors, and how the groups' nets add up to the account's unclamped net.
- **Reconcile** (`Routing`, `Books`, `Exits`, `Reconcile`, `Lapse`, `Runs` as specification;
  `Tables`, `Store`, `Reconciler`, `ReconcileRun` as the objects and methods): clustering, the
  greedy draw-down, exits, group creation, pre-attributed orders, lapsed settlements and
  self-heal. `ReconcileRun.ReconcileAccount` is proved equal to `Runs.Run`, and
  `Runs.EveryHistory` proves what every history of syncs, order links and runs keeps. The
  modules `Membership`, `Attribution`, `PassProofs`, `RunProofs`, `IntentProofs`, `PassTheorems`,
  `IntentCash`, `LapseProofs`, `LapseNets` and `LapseTwice` hold the steps; `RoutingProofs`,
  `Realized`, `Headers`, `ExitLog` and `LapsePrices` say what is routed, stamped and logged.
- **Operator regroup** (`Regroup`): moves between groups and the recompute of both ends.
- **Stakes** (`Stakes`, `StakeReads`, `SignedStakes`): the two reads of what open groups hold,
  their agreement, and conditions under which the signed stake is the clamped walk's net.
- **Fill units** (`FillUnits`): structure units of a multi-leg order by greatest common divisor.
- **Stream** (`Stream`, `Drain`): at-least-once delivery over a consumer group as a state machine
  over every interleaving, the drain of a pending list, and the balance throttle.
- **Bands** (`Bands`): paging transactions in whole bands.

`Rows` holds the record types, `Ordering`, `Division` and `Averages` the stable sort, selection and
arithmetic they share.

Decimals are exact reals, times are microseconds, names of accounts and securities are numbers,
and surrogate ids count from one as the in-memory tables assign them.

Where a statement one would expect is false of the code, the code is kept and the project says
when it fails:

- A finished group is not frozen: the rows of an order that names it join it. A pass leaves
  finished groups alone exactly when no candidate's order names one
  (`PassTheorems.FrozenExactlyWhen`), and moves balances by exactly the cash of the opening rows
  that join by order (`IntentCash.PassBalances`). `Runs.EveryHistory` speaks of the groups a
  history does not reach in this way, and keeps count of those it does.
- Lapse synthesis is described as idempotent, but a settlement written again replaces the one
  with its id and its exit is dropped as already held. A pass nets a pair to zero exactly when
  the group held nothing or no settlement of its own (`LapseNets.LapseNetsToZero`); otherwise
  every further pass undoes the one before (`LapseTwice.SettlesBackAndForth`,
  `LapseInputs.LateOpeningSwings`).
- Round trips that come and go within one instant share a natural key and overwrite each other,
  exactly when holdings of one instant begin and end twice
  (`Lifecycles.LifecyclesCollideExactlyWhen`, `Rebuild.CollisionLosesOne`).
- A lapsed lot's closed row omits the gains of the fills that had reduced it and the fees of its
  fills (`Lifecycles.LapseAccounting`).
- A rebuild stores every lifecycle without its trade group again (`Rebuild.RebuildUnlinks`).
- The quantity walk moves on price-less and zero-quantity rows the lot walk passes over
  (`ReducedWalks.NetAgreesExactlyWhen`). The docstring of `net_open_quantities` mentions only the
  price-less rows, and says reconcile's lapse synthesis keys off it, while synthesis reads the
  groups' own nets; the model follows the code in both.
- A settlement pair that retires part of a leg counts once in one read and twice in the walk
  (`SignedStakes.PairCountsTwice`), and fractional quantities part the two reads exactly when
  what the count drops reaches a lot or lies across zero from the net
  (`StakeReads.NetsAgreeExactlyWhen`, `StakeReads.HalvesDisagree`).
- A regroup moves cash between groups without moving it in their event logs
  (`Regroup.RegroupShiftsBalances`), and leaves a finished group finished though it has lost what
  had closed it (`Regroup.RegroupStatuses`).

## Model

| member | source | states |
|---|---|---|
| Replay.ReplaySecurity | tt_ledger/ingest/replay.py:400-471 | The full walk, loop and branches: position row and plan are those of the step-by-step specification, on which every identity below is proved. |
| Replay.Step | tt_ledger/ingest/replay.py:408-453 | One row keeps the lot well formed: the average is absent exactly when the lot is flat, and a flat lot carries nothing over. |
| Replay.LotFollowsTape | tt_ledger/ingest/replay.py:316-352 | The quantity held is the running sum of what was actually traded, and "has held the security" means a fill has been applied. |
| Replay.AccountingIdentity | tt_ledger/ingest/replay.py:400-455 | Over every history: realized profit of all closed rows plus that of the open lot, less the open cost basis, is minus the sum of delta x price x multiplier over applied fills; and the fees of applied rows all sit in exactly one lifecycle. |
| Settlements.SettlementRetires | tt_ledger/ingest/replay.py:316-352 | In every walk a settlement leaves \|held\| - min(\|quantity\|, \|held\|) on the same side; one that covers the whole lot ends it flat with one lifecycle, at the row's price or zero, with the lot's and the row's times and orders. |
| Settlements.TradeMoves | tt_ledger/ingest/replay.py:316-368 | Verb by verb: buying raises what is held by the quantity and selling lowers it, in replay and in the account net; a lot that a trade ends earns the price difference times quantity and multiplier on its own side. |
| Settlements.SkippedRows | tt_ledger/ingest/replay.py:343-352 | A cash movement, or an explicit close before anything was held, leaves lot, lifecycles and net as they were. |
| ReducedWalks.PriceRealizedGross | tt_ledger/ingest/replay.py:218-276 | The reduced walk, sorted in place of its callers, refines its step specification, clamped or not. |
| ReducedWalks.PriceIdentity | tt_ledger/ingest/replay.py:248-276 | Clamped or not, realized profit less the basis still held is the cash of the fills. |
| ReducedWalks.PriceRefinesReplay | tt_ledger/ingest/replay.py:218-276 | Unclamped, it equals the closed rows' realized profit plus what the open lot of the full walk has realized. |
| ReducedWalks.NeverThroughZero | tt_ledger/ingest/replay.py:250-254 | In the clamped walk no single row carries the lot through zero. |
| ReducedWalks.SettlementReferenceCancels | tt_ledger/ingest/replay.py:243-276 | A walk that ends flat realizes the same profit against every reference price S. |
| ReducedWalks.ReferenceMattersUnlessFlat | tt_ledger/ingest/replay.py:243-276 | And only such a walk does: two different references agree if and only if it ends flat. |
| ReducedWalks.NetOpenQuantities | tt_ledger/ingest/replay.py:186-215 | For exactly the securities of dated rows with a quantity: the signed quantity of the quantity-only walk. |
| ReducedWalks.NetAgreesExactlyWhen | tt_ledger/ingest/replay.py:166-215 | The quantity walk and the lot walk agree after every prefix if and only if no row is missed by the lot walk (a price-less trade, or a zero-quantity row that marks the security as held). |
| ReducedWalks.NetRefinesReplay | tt_ledger/ingest/replay.py:166-215 | When every trade row has a price and a non-zero quantity, the net is the signed quantity of the position row the full walk writes. |
| ReducedWalks.NetAndReplayDiffer | tt_ledger/ingest/replay.py:166-215 | Two concrete histories on which the walks come apart: a price-less open, and a zero-quantity row before a close. |
| Lifecycles.LifecyclesApart | tt_ledger/ingest/replay.py:418-453 | Strictly increasing times: opened_at < closed_at <= next opened_at, so no two lifecycles share the natural key. |
| Lifecycles.LifecyclesCollideExactlyWhen | tt_ledger/ingest/replay.py:418-453 | With times that tie, two lifecycles share the key if and only if, among rows of one instant, what the rows hold begins and then reaches or crosses zero twice. |
| Lifecycles.FewFillsApart | tt_ledger/ingest/replay.py:418-453 | Fewer than three fills of the security at any one instant are enough for every lifecycle to have a key of its own. |
| Lifecycles.CollisionExample | tt_ledger/ingest/replay.py:441-453 | For any instant and any two gains, four futures fills make two round trips under one natural key. |
| Rebuild.CollisionLosesOne | tt_ledger/store/memory.py:135-137 | Writing those two keeps only the second: the first round trip's profit is stored nowhere. |
| Lifecycles.LifecyclesSound | tt_ledger/ingest/replay.py:418-453 | Every lifecycle held something, at an average entry price between the least and greatest price traded, and nets realized less fees; so does the lot still open. |
| Lifecycles.ClosedAreCycles | tt_ledger/ingest/replay.py:382-453 | Each lifecycle row is one stretch of rows from nothing held, or the other side, back: times and orders of its first and last row, the last row's price, quantity and side then held, whole days held. |
| Lifecycles.PositionIsHolding | tt_ledger/ingest/replay.py:456-471 | The position row is what the rows add up to, begun by the row it began with; flat, it keeps the last lifecycle's side; fields replay has no opinion on stay as stored. |
| Lifecycles.LapseClosesAtZero | tt_ledger/ingest/replay.py:117-163 | A lot still held two days past its expiry is closed whole at price zero, at 21:15 on the expiry day, for minus its cost; any other stays. |
| Lifecycles.LapsedApart | tt_ledger/ingest/replay.py:117-163 | The lapsed lifecycle of an expired lot does not share a key with the others either. |
| Lifecycles.LapseAccounting | tt_ledger/ingest/replay.py:117-163 | Closed rows after a lapse carry the cash of all fills less the gains of the fills that reduced the last lot since it began, and all fees less those of that lot's fills. |
| Lifecycles.LapseCompleteWhen | tt_ledger/ingest/replay.py:117-163 | They carry all the cash when no fill has reduced the last lot since it began. |
| Rebuild.RebuildTwiceIsOnce | tt_ledger/ingest/replay.py:81-114 | A second rebuild leaves positions, lifecycles, surrogate ids and both link columns exactly as they were, ties and lapses included. |
| Rebuild.OthersStaySettled | tt_ledger/ingest/replay.py:93-112 | Rebuilding one security disturbs nothing another security's rebuild wrote. |
| Rebuild.NoLifecycleLost | tt_ledger/ingest/replay.py:108-112 | With strictly increasing times every lifecycle stands in the closed-positions table as it was replayed: the upsert never merges two. |
| Rebuild.RebuildUnlinks | tt_ledger/store/memory.py:190-191 | Every lifecycle a rebuild writes is stored without a trade group, so it overwrites a link made by link_closed_positions_to_groups. |
| RebuildOrder.RebuildTakesOpensFirst | tt_ledger/ingest/replay.py:93-94 | A rebuild takes rows by time; at one instant settlements and closes come after the others, and otherwise the stored order stands. |
| RebuildOrder.OpenAndCloseAtOnce | tt_ledger/ingest/replay.py:355-361 | An open and an equal close at one instant, stored either way round, end flat with one lifecycle that earns the price difference. |
| RebuildOrder.RebuildTakesUp | tt_ledger/ingest/replay.py:78-93 | A rebuild goes over exactly the securities of the account's rows that have a security, a quantity and a time, each with exactly its rows, and is as late as the last of them. |
| RebuildLinks.RebuildLinksRows | tt_ledger/ingest/replay.py:100-114 | A transaction is linked to the position exactly when its row filled and left something held, to a closed position exactly when it ended a lifecycle, and others keep their links. |
| RebuildLinks.RebuiltPosition | tt_ledger/ingest/replay.py:93-105 | The position a rebuild stores has the quantity and side the rows add up to, or nothing once the contract is long expired; start and cost come and go with it, and what replay has no opinion on stays. |
| PositionStore.ReplayStore.RebuildForAccount | tt_ledger/ingest/replay.py:81-114 | The pass over the tables in place equals the specification, and a second call would change nothing. |
| PositionStore.ReplayStore.RebuildLot | tt_ledger/ingest/replay.py:93-112 | One security: replay, lapse, upsert of the position, lifecycles in plan order, links. |
| PositionStore.ReplayStore.BySecurity | tt_ledger/ingest/replay.py:82-88 | Rows per security in first-seen order, skipping rows without security, quantity or time. |
| PositionStore.ReplayStore.WriteLifecycles | tt_ledger/ingest/replay.py:108-112 | Upserts each lifecycle and collects, per transaction, the position id or none and the closed id or none. |
| PositionStore.ReplayStore.LinkTransactionsToPositions | tt_ledger/store/memory.py:241-249 | Both link columns of exactly the listed transactions, a later entry for one key winning. |
| PositionStore.ReplayStore.GetPosition | tt_ledger/store/memory.py:282-286 | The stored position of an (account, security), or none. |
| GroupNet.ComputeNetQuantities | tt_ledger/ingest/reconcile.py:672-681 | The loop over time-ordered rows gives the per-security map of the clamped walk. |
| GroupNet.ComputePeakExposures | tt_ledger/ingest/reconcile.py:684-698 | The loop gives the per-security peak of the same walk. |
| GroupNet.NetOfSecurity | tt_ledger/ingest/reconcile.py:672-681 | A security's net depends on that security's rows alone. |
| GroupNet.NetOrderIndependent | tt_ledger/ingest/reconcile.py:665-681 | With distinct times per security the net does not depend on the order members are held in. |
| GroupNet.NetAfterLatest | tt_ledger/ingest/reconcile.py:665-681 | A row no earlier than its security's others is applied last, by one clamped step. |
| GroupNet.CloseClamps | tt_ledger/ingest/reconcile.py:621-662 | A close leaves the net between where it was and zero. |
| GroupNet.PeakIsLargestNet | tt_ledger/ingest/reconcile.py:684-698 | Peak and net cover the same securities; the peak bounds every \|net\| the walk passes through and is reached by one of them. |
| GroupNet.OnlyClosesNetEmpty | tt_ledger/ingest/reconcile.py:514-522 | A membership whose position rows are all closes nets to the empty map. |
| GroupNet.OppositeOpensAreMixed | tt_ledger/ingest/reconcile.py:1103-1128 | Two opposite openings are fully closed, have no cause and end mixed. |
| GroupNet.SameMembersSameCauses | tt_ledger/ingest/reconcile.py:1103-1128 | With distinct times, being fully closed and the causes depend only on who the members are. |
| GroupNet.TerminalStatus | tt_ledger/ingest/reconcile.py:1267-1268 | Never open; the one cause when there is exactly one, mixed otherwise. |
| GroupNet.DetectorsDisjoint | tt_ledger/ingest/reconcile.py:410-540 | No group is selected by two of the fully-closed heal, the misattributed detector and the orphan detector, and the orphan detector's net guard is redundant. |
| GroupNet.MisattributedIs | tt_ledger/ingest/reconcile.py:443-444 | A group is reported misattributed if and only if it holds something and nothing it holds is held by the account. |
| Conservation.AccountIsGroupsPlusGaps | tt_ledger/ingest/reconcile.py:621-662 | Over every time-ordered trade history of one security, the account net is the sum of the groups' nets plus, per row, the account delta less the delta its group's clamped step applied. |
| Conservation.SkippedCloseIsGroupNoOp | tt_ledger/ingest/replay.py:204-209 | A leading close the account walk skips is a no-op in the group it is attributed to. |
| Conservation.GapOfRow | tt_ledger/ingest/reconcile.py:649-662 | What a row holds back: nothing for an opening; nothing for a close if and only if its group covers it or the account skips it too; otherwise exactly the excess. |
| Conservation.AccountAgainstGroups | tt_ledger/ingest/replay.py:166-215 | For the walks as they are called, with distinct times: account net = sum of group nets + gaps, and equality when every row that acts as a close is covered by its group or unseen by the account. |
| Conservation.AgreeThroughoutExactlyWhen | tt_ledger/ingest/reconcile.py:621-662 | Account and groups hold the same after every row if and only if no close is cut, skipped or misdirected. |
| Routing.ClusterByTime | tt_ledger/ingest/reconcile.py:882-893 | The clustering loop, dated rows in time order and undated rows alone. |
| Routing.ClustersPartition | tt_ledger/ingest/reconcile.py:882-893 | The clusters are a partition of the candidates, each dated one within the tolerance row by row and the next one too late to join. |
| Routing.ClustersFiveSeconds | tt_ledger/ingest/reconcile.py:882-893 | Dated rows of a cluster are at most five seconds apart one to the next; the next cluster starts later than that. |
| Routing.ClustersByTime | tt_ledger/ingest/reconcile.py:881-893 | Clusters are taken by time, the undated rows behind all others, and rows of one time in the order they come. |
| Routing.WellSpacedUnique | tt_ledger/ingest/reconcile.py:886-891 | There is only one such cut: the clusters are the maximal runs. |
| Routing.DrawDown | tt_ledger/ingest/reconcile.py:1049-1075 | The greedy loop over groups, in place on the remaining nets: returns the first eligible group and leaves the drawn-down nets. |
| Routing.FirstEligibleIsFirst | tt_ledger/ingest/reconcile.py:1064-1075 | The group returned is the first eligible one, and none if and only if there is none. |
| Routing.DrawnExactly | tt_ledger/ingest/reconcile.py:1063-1075 | A draw-down takes exactly min(\|quantity\|, sum of the eligible groups' \|net\|). |
| Routing.DrawnWithinNet | tt_ledger/ingest/reconcile.py:1063-1075 | No net is carried through zero, ineligible nets stay, and an eligible net is left standing only when the quantity is used up. |
| Routing.DrawnToTheEnd | tt_ledger/ingest/reconcile.py:1063-1075 | Afterwards nothing is left to take or no eligible net is left. |
| Routing.RouteCluster | tt_ledger/ingest/reconcile.py:1077-1100 | The routing loop with its buckets and rest. |
| Routing.RoutePartitions | tt_ledger/ingest/reconcile.py:1077-1100 | Every row lands in exactly one bucket or in the rest; buckets name distinct groups, are never empty and hold only rows that can close. |
| RoutingProofs.RowGoesWhereItBelongs | tt_ledger/ingest/reconcile.py:1077-1100 | Each row goes to the first group with something left for it to take; failing that a close or settlement goes to the first group with a member in its security; else, or if it closes nothing, to the rest. |
| RoutingProofs.RoutedRightly | tt_ledger/ingest/reconcile.py:1031-1100 | No close or settlement is in the rest while a group has a member in its security, and every bucketed row is in a security its group has a member in. |
| Routing.ChosenGroupMatchesDraw | tt_ledger/ingest/reconcile.py:1049-1075 | For a row no earlier than the held ones, the chosen group's net after attaching it is the drawn-down remainder. |
| Books.LargestStepIsLargestPeak | tt_ledger/ingest/reconcile.py:1382-1384 | The size of a group is the largest peak exposure of any of its securities. |
| Books.PriceAndCashAgree | tt_ledger/ingest/reconcile.py:739-771 | On a completed futures round trip whose values are measured against one settlement price, price-based and cash-based profit agree. |
| Books.MoneyHalfCountsOnce | tt_ledger/ingest/reconcile.py:571-598 | A settlement's money row adds no contracts beside its removal row. |
| Realized.RealizedInParts | tt_ledger/ingest/reconcile.py:739-771 | A group's profit is that of its rows in any one future plus that of all its other rows. |
| Realized.ExitStampsRight | tt_ledger/ingest/reconcile.py:1267-1283 | Stamped by a closing exit: without futures, profit less fees is the members' signed net, which for balanced books is the premium of the log; with one future, traded out, profit is its fills' price cash, whatever the net values. |
| Realized.HealStampsRight | tt_ledger/ingest/reconcile.py:283-337 | Stamped the same by a heal, for every open group it finds fully closed. |
| Headers.CreatedDescribes | tt_ledger/ingest/reconcile.py:1348-1433 | A created header says its members' cash, fees, largest peak, number of securities, the one security if it is one, and first time; the entry event repeats cash, size and time. |
| Headers.JoinedDescribes | tt_ledger/ingest/reconcile.py:1004-1025 | A header joined by more openings describes the members it then has; security, once set, stays, and the start is the members' first time when there is one. |
| Headers.EveryFeeCounts | tt_ledger/ingest/reconcile.py:710-718 | Each of the four itemized fees of any row counts in full. |
| Headers.MembersLoadInOrder | tt_ledger/store/memory.py:334-336 | A group's members load by time, undated last, and in stored order where times agree. |
| ExitLog.ExitLogs | tt_ledger/ingest/reconcile.py:1217-1264 | Of each kind an exit logs exactly the event its rows call for: quantity, cash, time, delivery link, full or partial, roll; no new row, no event. |
| ExitLog.RoutedLogs | tt_ledger/ingest/reconcile.py:829-862 | When a cluster is routed, a group some rows go to gains its own exit's events alone: rolled to, or delivered into, the group the rest has just opened exactly when there is a rest the linker takes for that. |
| ExitLog.SettledCounts | tt_ledger/ingest/reconcile.py:571-598 | A settlement of one security counts its removal rows, and its cash rows only when those remove nothing. |
| ExitLog.CausesAre | tt_ledger/ingest/reconcile.py:1117-1128 | Which causes a group has, cause by cause, from its rows' sub-types and verbs. |
| ExitLog.FullyClosedIs | tt_ledger/ingest/reconcile.py:1103-1114 | Fully closed: something traded, something could open, all of it back at zero; closes alone never are. |
| Membership.ExtendUniqueIsSetUnion | tt_ledger/ingest/reconcile.py:911-928 | Extending a group adds each transaction once: ids become the union, and extending again is a no-op. |
| Exits.ExitPremium | tt_ledger/ingest/reconcile.py:1223-1264 | The events of one exit carry exactly the signed net of the rows applied, for its group and no other. |
| PassProofs.ExitKeepsBalance | tt_ledger/ingest/reconcile.py:1199-1264 | One exit keeps premium of events less cash of members, even when its rows overlap what the group holds. |
| PassProofs.ExitTwiceIsOnce | tt_ledger/ingest/reconcile.py:1206-1214 | Applying an exit again adds no event, no member and no figure. |
| PassProofs.ExitOthers | tt_ledger/ingest/reconcile.py:1191-1289 | An exit leaves every other group's record, members and events alone. |
| PassProofs.BucketStep | tt_ledger/ingest/reconcile.py:847-862 | A routed bucket keeps the invariant of the pass and attributes exactly its rows. |
| RunProofs.CreateStep | tt_ledger/ingest/reconcile.py:838-844 | The rest becomes a new open group whose entry event carries its cash. |
| PassTheorems.CandidatesUnattributed | tt_ledger/ingest/reconcile.py:821-826 | The clusters of a pass are the unattributed candidate rows of the account, each once. |
| Attribution.IntentsPartition | tt_ledger/ingest/reconcile.py:964-970 | A cluster divides into the rows whose orders name a group, one non-empty bucket for each group named with its rows in order, and the others. |
| Attribution.IntentsAttribute | tt_ledger/ingest/reconcile.py:974-989 | The intent groups of a cluster attribute exactly the rows they do not return. |
| Attribution.PassAttributes | tt_ledger/ingest/reconcile.py:821-869 | On any books, whatever orders name: a pass gives every candidate a group and moves no other row. |
| Attribution.NamedGroupWins | tt_ledger/ingest/reconcile.py:974-988 | A candidate whose order names a group that is there ends in that group, open or finished. |
| PassTheorems.PassTheorem | tt_ledger/ingest/reconcile.py:821-869 | One pass attributes every candidate and no other row, and ends with no open group of the account fully closed; every group no candidate's order names keeps its balance (a new one starts balanced), keeps record, members and events if it was not open, and keeps a right status right. |
| PassTheorems.FrozenExactlyWhen | tt_ledger/ingest/reconcile.py:956-1001 | A pass leaves every group that was not open for the account as it was if and only if no candidate's order names one of them. |
| PassTheorems.PassHoldsAllOpen | tt_ledger/ingest/reconcile.py:829-862 | A pass routes by all there is: to its end it holds every open group of the account, those it created included, each once and with exactly its members. |
| IntentCash.PassBalances | tt_ledger/ingest/reconcile.py:974-988 | For every group there was, named or not: a pass lowers premium of events less cash of members by exactly the cash of the opening candidates whose orders name it. |
| Attribution.RerunIsNoOp | tt_ledger/ingest/reconcile.py:821-869 | On any books: a rerun finds no candidate and changes nothing. |
| Upserts.UpsertKeepsAttribution | tt_ledger/store/memory.py:172-181 | A re-sync never loses a group, position or closed-position link, whatever it carries otherwise. |
| Upserts.UpsertTakesTheRest | tt_ledger/store/memory.py:172-181 | All a re-synced row does carry replaces what was stored; only an order, group and positions it does not name stay; a new row is appended as it comes. |
| Upserts.UpsertTwiceIsOnce | tt_ledger/store/memory.py:172-181 | Syncing the same row again is a no-op. |
| Upserts.UpsertsSplit | tt_ledger/store/memory.py:172-181 | A batch with distinct ids rewrites in place the rows it names, over what their empty columns keep, and appends the others in order. |
| Lapse.LapseCashIsSignedTotal | tt_ledger/ingest/reconcile.py:231-269 | The cash synthesized for a security is points x multiplier x the sum of the signed group nets, so offsetting siblings cancel. |
| LapsePrices.SettledExactlyWhen | tt_ledger/ingest/reconcile.py:184-240 | A pass settles a group's security if and only if the open group holds some of it, it is due, and it has a price if it is an option. |
| LapsePrices.ClockIsOwnActivity | tt_ledger/ingest/reconcile.py:179-182 | What is due goes by the last time among the account's own transactions, never by the wall clock; without one nothing is settled. |
| LapsePrices.LapsesArePriced | tt_ledger/ingest/reconcile.py:231-269 | Each settlement is for all its group holds, at 21:15 on expiry: an option at what it is worth against its price, anything else at zero; cash is price x signed net x multiplier. |
| LapsePrices.CallLessPut | tt_ledger/ingest/reconcile.py:233-237 | A call and a put otherwise alike: their prices multiply to zero and call less put is the settlement price less the strike. |
| LapseProofs.SynthesisTheorem | tt_ledger/ingest/reconcile.py:184-280 | The table changes by the settlements alone; groups that were not open stay untouched and right statuses right, unless a settlement returns from another group; balances stay, except where a settlement is written again. |
| LapseNets.LapseNetsToZero | tt_ledger/ingest/reconcile.py:231-280 | A due security with a resolved price nets to zero in an open group whose rows are timely if and only if it was zero before or the group holds no settlement of its own for it; otherwise quantity held and quantity settled swap. |
| LapseTwice.SecondPassSettles | tt_ledger/ingest/reconcile.py:184-280 | A second pass settles a group's security again if and only if the first wrote its settlement over one the group held. |
| LapseTwice.SecondPassSynthesizesNothing | tt_ledger/ingest/reconcile.py:184-280 | A second pass synthesizes nothing if and only if the first rewrote nothing. |
| LapseTwice.SettlesBackAndForth | tt_ledger/ingest/reconcile.py:231-280 | Where the first pass overwrites a settlement the second undoes it: what is held swings between two amounts and never reaches zero. |
| LapseInputs.LateOpeningSwings | tt_ledger/ingest/reconcile.py:231-280 | Two contracts bought and settled and a third that arrives late: the group holds one, then two, then one. |
| LapseInputs.TieSettlesAnyway | tt_ledger/ingest/reconcile.py:231-280 | A row at the very instant of the settlement and behind it in the table can make the net zero although a settlement is rewritten. |
| Runs.RunTheorem | tt_ledger/ingest/reconcile.py:774-874 | One run: every candidate grouped, attributions write-once, no open group left fully closed; finished groups untouched and right statuses right except in groups an order names or a moved settlement leaves or returns to; balances kept except in groups an order names or whose settlement is rewritten. |
| Runs.ActivityIsGrouped | tt_ledger/ingest/reconcile.py:821-826 | After a run every row of the account in range that has an order, settles, or was delivered by one of the six verbs has a group; no other ungrouped broker row gets one. |
| Runs.RunAgain | tt_ledger/ingest/reconcile.py:774-874 | On any books: a second run with nothing new and no lapse due changes nothing, no group, event or attribution. |
| Runs.RunAccounts | tt_ledger/ingest/reconcile.py:774-874 | Groups never change account; new ones belong to the run's. |
| Runs.EveryHistory | tt_ledger/ingest/reconcile.py:774-874 | Over every history of syncs, order links and runs: attributions are write-once; every group the history never reached is open if and only if its members are not fully closed (for distinct times) and never changes once finished; every group it never shifted keeps its event log's balance. |
| Tables.Table.Upsert | tt_ledger/store/memory.py:61-72 | Replaces the row with the same natural key at its id, or appends under the next id; the index stays exact. |
| Tables.Table.Insert | tt_ledger/store/memory.py:74-78 | Appends under the next id. |
| Tables.Table.IdOf | tt_ledger/store/memory.py:87-88 | The id of the row that carries a key, if any. |
| Store.InMemoryStore.UpsertTransactions | tt_ledger/store/memory.py:172-181 | Row by row, with empty linkage columns preserved from what is stored. |
| Store.InMemoryStore.AttachTransactions | tt_ledger/store/memory.py:259-266 | Exactly the named transactions get the group. |
| Store.InMemoryStore.MoveTransactions | tt_ledger/store/memory.py:268-275 | Exactly the transactions with the named surrogate ids are moved. |
| Store.InMemoryStore.UpsertTradeGroup | tt_ledger/store/memory.py:251-252 | Replaces the group of that name or appends it, and returns its id. |
| Store.InMemoryStore.AddTradeGroupEvent | tt_ledger/store/memory.py:254-257 | The event log grows by exactly that event. |
| Store.InMemoryStore.GetGroupTransactions | tt_ledger/store/memory.py:334-336 | The members of a group in time order, undated last. |
| Reconciler.OpenGroup.ExtendUnique | tt_ledger/ingest/reconcile.py:911-928 | In place: the rows not yet held are appended. |
| Reconciler.EmitSettlements | tt_ledger/ingest/reconcile.py:1238-1256 | One event per settlement kind in first-seen order. |
| Reconciler.EmitExit | tt_ledger/ingest/reconcile.py:1217-1264 | The events of an exit, in the order the source writes them. |
| Reconciler.ApplyExit | tt_ledger/ingest/reconcile.py:1191-1289 | Attach, drop held rows, extend, log, and settle when fully closed; returns what was applied. |
| Reconciler.CreateTradeGroup | tt_ledger/ingest/reconcile.py:1400-1433 | A new open group, its members attached and its entry event. |
| Reconciler.LoadOpenGroups | tt_ledger/ingest/reconcile.py:946-953 | The account's open groups in id order with their members, as new objects. |
| Reconciler.HealFullyClosedGroups | tt_ledger/ingest/reconcile.py:283-337 | Every open group already fully closed is settled and logged; counts them. |
| Reconciler.ExitAndSettle | tt_ledger/ingest/reconcile.py:857-862 | Applies an exit and takes the group out of the list exactly when it is fully closed. |
| Reconciler.ApplyRouted | tt_ledger/ingest/reconcile.py:846-862 | The loop over buckets, each against the group object it was routed to. |
| Reconciler.GroupForPk | tt_ledger/ingest/reconcile.py:992-1001 | The group in the list, else loaded and appended whatever its status, else none. |
| Reconciler.JoinGroup | tt_ledger/ingest/reconcile.py:981-984 | Opening fills of an intent order join without an event and refresh the header. |
| Reconciler.ApplyIntentGroup | tt_ledger/ingest/reconcile.py:974-988 | One intent group: openings join, closes exit, rows of a missing group come back. |
| Reconciler.SplitIntents | tt_ledger/ingest/reconcile.py:964-970 | Rows by the group their order names, and the others. |
| Reconciler.ApplyIntentRows | tt_ledger/ingest/reconcile.py:956-989 | All intent groups in first-seen order; the rows left for the router. |
| Reconciler.RouteAndApply | tt_ledger/ingest/reconcile.py:836-862 | Route, create from the rest, apply the buckets. |
| Reconciler.ReconcileCluster | tt_ledger/ingest/reconcile.py:832-862 | One cluster of a pass. |
| ReconcileRun.CandidateTxns | tt_ledger/ingest/reconcile.py:821-826 | The ungrouped rows of the account in range that a pass takes up. |
| ReconcileRun.SettleSecurity | tt_ledger/ingest/reconcile.py:231-269 | One settlement per open group that holds the security, at its own sign. |
| ReconcileRun.SynthesizeLapsedSettlements | tt_ledger/ingest/reconcile.py:184-280 | Discovery, clock, prices, rows, upsert and exits equal the specification. |
| ReconcileRun.ReconcileAccount | tt_ledger/ingest/reconcile.py:816-869 | The whole run over the store equals the specification, leaves no open group of the account fully closed, and keeps books that were in order in order. |
| Stakes.FoldOpenGroupLegs | tt_ledger/rows.py:284-321 | The fold: one row per (account, security, group) seen, in first-seen order. |
| Stakes.FoldOrderIndependent | tt_ledger/rows.py:284-304 | The fold of a leg does not depend on record order. |
| Stakes.ClosesKeepTheEntry | tt_ledger/rows.py:294-312 | Closes and settlements move neither the entry price nor the side held. |
| Stakes.AverageWithin | tt_ledger/rows.py:294-311 | When opens have prices and positive quantities the average exists if and only if something opened, and lies between the least and greatest opening price. |
| StakeReads.OpenGroupLegs | tt_ledger/store/memory.py:338-355 | The fold over the records of open groups, optionally of one account. |
| StakeReads.OpenLegsAre | tt_ledger/store/memory.py:338-355 | The read lists, once each, exactly the legs with a transaction, on the account asked for, in a group that is open. |
| StakeReads.NetOpenByGroup | tt_ledger/store/memory.py:357-383 | An entry exactly for each wanted group and security with a record: traded net less the largest removal. |
| StakeReads.NetsAgreeExactlyWhen | tt_ledger/store/memory.py:357-383 | Fold and count give one net if and only if the fractions traded, less that of the largest removal, amount to less than a lot on the net's own side of zero. |
| StakeReads.StakeReadsAgree | tt_ledger/store/memory.py:338-383 | For an open single-account group both reads list the same legs, with the same net if and only if it absorbs the fractions; whole quantities drop none. |
| StakeReads.HalvesDisagree | tt_ledger/store/memory.py:369-369 | Two half lots count one in the fold and none in the count. |
| SignedStakes.StakeIsWalk | tt_ledger/rows.py:252-260 | For an orderly leg (opens one way, closes within what is held, settlements last and exact) the signed stake is the clamped walk's net. |
| SignedStakes.SignedStakeIsNet | tt_ledger/ingest/reconcile.py:672-681 | Over the books: the signed figure of the leg read is the net reconcile reasons with, truncated, rows without a quantity included. |
| SignedStakes.PairCountsTwice | tt_ledger/rows.py:302-304 | A settlement pair counts once in the fold and twice in the walk: they agree if and only if it retires nothing or everything. |
| FillUnits.OrderLevelFillFields | tt_ledger/repositories/__init__.py:130-188 | All branches of the aggregate: no legs, one leg, an unusable quantity, several legs. |
| FillUnits.SingleLegFields | tt_ledger/repositories/__init__.py:159-162 | A single leg reports its own fills whatever the orientation: filled, remaining, and a price that times what was filled is the fills' value. |
| FillUnits.RatiosCoprime | tt_ledger/repositories/__init__.py:164-170 | Every quantity is units x ratio and the ratios have no common factor. |
| FillUnits.FilledPlusRemaining | tt_ledger/repositories/__init__.py:172-176 | When every leg has filled + remaining = quantity, filled units + remaining units = units. |
| FillUnits.PriceTimesUnits | tt_ledger/repositories/__init__.py:178-188 | Completely filled, price x units is what sells received less what buys paid, negated for a debit. |
| FillUnits.PricedExactlyWhen | tt_ledger/repositories/__init__.py:178-185 | There is a price if and only if every leg has filled something. |
| FillUnits.UnknownExactlyWhen | tt_ledger/repositories/__init__.py:157-167 | Nothing is known if and only if there are no legs, or several of which one is not a positive whole quantity. |
| FillUnits.OrderScales | tt_ledger/repositories/__init__.py:164-188 | k times all quantities and fills: the same price, k times the units. |
| Stream.EveryInterleaving | tt_ledger/ingest/redis_stream_source.py:156-203 | Over every interleaving of read, yield, apply, ack, stop, loss and reclaim by any number of consumers: handed out is acked or pending, and acked was unreadable, found trimmed on reclaim, or attempted; no unreadable entry is ever applied. |
| Stream.AckedAfterAttempt | tt_ledger/ingest/push.py:86-97 | A message acked by step k has, among the steps before k, a finished apply attempt or the step at which its reclaiming consumer found it trimmed. |
| Stream.NothingTakenBack | tt_ledger/ingest/redis_stream_source.py:193-203 | Acks, attempts and deliveries are never undone. |
| Stream.NothingForgotten | tt_ledger/ingest/redis_stream_source.py:156-203 | Until a consumer is stopped or lost, all that is pending for it is before it: waiting for more, it has nothing pending. |
| Drain.PendingList.DrainReclaimed | tt_ledger/ingest/redis_stream_source.py:227-266 | A drain over a wholly idle list terminates with all of it acked and all its messages attempted. |
| Drain.BalanceThrottle.ApplyBalance | tt_ledger/ingest/push.py:109-124 | The throttle decision and its per-account state, in place. |
| Drain.NoValueLost | tt_ledger/ingest/push.py:109-124 | However many updates are held back, the last value stored for an account is the last it sent. |
| Drain.StoredApart | tt_ledger/ingest/push.py:109-124 | Consecutive stored rows of an account are an interval apart or differ in value. |
| Bands.QueryTransactions | tt_ledger/store/memory.py:453-479 | Matching rows newest first, undated last, one page of them and the total. |
| Bands.NewestListedFirst | tt_ledger/store/memory.py:453-479 | The read lists exactly the matching transactions under their ids, once each: later ones first, of one time the later stored first, undated ones last. |
| Bands.QueryTransactionBands | tt_ledger/store/memory.py:488-506 | Folded into bands in first-seen order; one page of bands laid out, with both totals. |
| Bands.BandsAreGroups | tt_ledger/store/memory.py:496-499 | Two listed transactions share a band if and only if they are in one group or the same. |
| Bands.PagesPartition | tt_ledger/store/memory.py:488-506 | For any filter and page size, the pages up to the band total list every matching transaction exactly once. |
| Bands.BandInOnePage | tt_ledger/store/memory.py:499-503 | A band's rows lie in one unbroken stretch of one page and in no other. |
| Bands.BandComplete | tt_ledger/store/memory.py:494-498 | A band lists all its matching rows, newest first. |
| Bands.BandsFollowFirstRows | tt_ledger/store/memory.py:499-500 | Bands follow the order of their first rows. |
| Regroup.RegroupTransactions | tt_ledger/ingest/remap.py:83-136 | The move and the recompute of every affected group over the store, or no write when the target is missing. |
| Regroup.RegroupStatuses | tt_ledger/ingest/remap.py:83-189 | After a regroup the status of every group it left or reached says whether what it now holds is complete if and only if it was open before or is complete now. |
| Realized.RegroupStampsRight | tt_ledger/ingest/remap.py:169-189 | Every group a regroup left or reached says its members' cash and fees, and if fully closed the right profit. |
| Realized.RegroupDescribes | tt_ledger/ingest/remap.py:169-189 | Such a group is described anew by its members on its own account; a new group takes the account of the first transaction listed, the others keep theirs. |
| Regroup.RegroupSettles | tt_ledger/ingest/remap.py:120-134 | Exactly the groups left or reached are recomputed, each from what it then holds; no event premium changes. |
| Regroup.RegroupShiftsBalances | tt_ledger/ingest/remap.py:120-134 | A group's event balance shifts by the cash that left less the cash that arrived, so it is kept if and only if those are equal. |
| Regroup.RegroupTwice | tt_ledger/ingest/remap.py:83-136 | Regrouping the same transactions into the same group again logs one more adjustment and otherwise changes nothing. |

## Left out

- Decimal context rounding: quantities, prices and cash are exact reals, so results that depend
  on the precision of a division are not modelled.
- Action and sub-type texts: actions are the six verbs, no action, or any other text up to the
  prefix and suffix tests the code makes; a listed verb with surrounding blanks is any other text,
  and sub-types are compared without trimming.
- The orders table: a transaction's order and the group that order names are columns of the
  transaction that anything may change between runs (`Runs.EveryHistory` lets it), so the three
  link steps at the start of a run and the stamping of orders at group creation appear only as
  that change, never inside a run. An order linked to a transaction a group already holds
  changes that column alone and is not modelled.
- ReconcileRun.ReconcileAccount: begins after the three link steps and ends before
  `_link_cross_cluster_rolls`, which adds roll events without premium.
- Reconciler.CreateTradeGroup: does not stamp the member orders with the new group, which a pass
  under way would not see, its candidates having been read before.
- Store.InMemoryStore.AddTradeGroupEvent: takes the time it is given; an event without one stays
  without one where the store would stamp the clock.
- Roll and delivery matching (`_same_underlying`, `_delivers_underlying`) are parameters of a
  pass that only choose the target an event points at.
- Order ids and notes of events, strategy classification, underlyings, review status and the other
  annotations of groups and events, which no result here reads.
- `dry_run`, isolation of one account's failure from the next, logging and the choice of accounts
  in a run: a run is one account's, without errors.
- Group ids are fresh values, namely the surrogate id.
- Rows returned by the in-memory store are values: the aliasing by which a caller could change a
  stored row through a returned one is not modelled, and linking columns change only through the
  store's methods.
- Overlapping runs: two runs of one account racing each other are covered only as far as an exit
  or a membership extension may receive rows the group already holds.
- Runs.EveryHistory: leaves out operator moves, and says nothing of the status and log of a group
  an order or a moved settlement reached; a synced row names no group, as ingestion's rows do not.
- LapseNets.LapseNetsToZero: is stated for groups whose rewritten settlements are as a pass wrote
  them (`LapseTwice.UndisturbedAfter` keeps that), and whose other rows in the security are dated
  by the settlement's time, strictly before it when one is rewritten: `LapseInputs.TieSettlesAnyway`
  shows the tie that the statement must exclude.
- Regroup.RegroupTransactions: recomputes affected groups in id order, where the code iterates a
  set; records and memberships do not depend on it, the order of adjustment events does. The
  review status an emptied group receives and the target's manual stamp are not modelled.
- `remap_trade_group`, `link_order_to_group`, `mark_trade_group_unfilled`,
  `dismiss_trade_group`, `recompute_futures_group_pnl`: field changes on one record.
- `covered_by` in the two detectors and `_over_closing_groups`: suggestions for the operator.
- Filters of `query_transactions` are an arbitrary predicate on transactions, and the newest-first
  key is the exact time rather than its floating-point timestamp.
- The Redis commands are an assumed step relation: a read hands out any entries not yet handed
  out, a reclaim takes any pending ones, and a trimmed entry stays pending until it is
  acknowledged. Reconnection back-off, idle time-outs and the parser's decoding are not modelled.
- Drain.PendingList.DrainReclaimed: is stated for a wholly idle list and a consumer that runs to
  completion; stops and losses during a drain are covered by the interleavings in `Stream`.
- Agreement of the SQL store with the in-memory one, its band order included.
- REST, WebSocket and OAuth clients, parsing, the command line, routes, configuration and
  migrations.
