# Verified model of relay-edge's stateful components

This project models the parts of relay-edge that carry state, loops or arithmetic, and proves
what they keep over whole runs. `dafny verify dfyconfig.toml` checks all of it (Dafny 4.11).

| file | component |
|---|---|
| `TokenBucket.dfy`, `RateLimiter.dfy` | per-client token buckets and the limiter with its stale sweep |
| `Alarms.dfy`, `AlarmRuns.dfy` | the alarm book, one batch or one operation at a time, and all its histories |
| `Plant.dfy`, `PlantRuns.dfy` | the fire-water plant's random step, the events it derives, and interleaved ticks |
| `Interlock.dfy`, `Conditions.dfy`, `RuleTable.dfy` | the interlock expression language, its meaning, and rule tables |
| `ShippedRules.dfy`, `Responses.dfy` | the shipped cause-and-effect matrix, and what it answers under each scenario of the plant |
| `Catalogue.dfy` | the sensor catalogue's limits and ranges against the plant's events and readings |
| `Topology.dfy` | the downstream closure over the plant graph |
| `Ticker.dfy` | the start/stop protocol of the simulated engines |
| `JsonStore.dfy`, `SiteStore.dfy` | atomic file replacement and the site/zone store over two files |
| `LogRing.dfy` | the log ring |
| `Fleet.dfy`, `RemoteEdge.dfy` | the other two simulators' steps and derived events |
| `Simulator.dfy`, `Rounding.dfy` | what the three simulators share: tables of writes and the loop that applies them, and the rounding of shown values |
| `Common.dfy` | options, random draws, selecting part of a run |

Conventions. Time is an integer count of nanoseconds and `float64` an exact real. A mutex section is
one atomic operation. Clock readings, random draws, formatted times and system-call failures are
parameters, so every theorem holds for all of them. Objects whose methods update fields are classes;
their methods are proved against functions on values, and the whole-run theorems are about those
functions. The limiter's theorems take `rps > 0`, since the server builds a limiter only then
(`internal/httpapi/server.go:118`).

Findings, where the code decides against an obvious claim:

- The limiter reads its clock before it takes the lock, so instants can be out of order. On runs out of
  order by at most `skew`, the sweep is invisible exactly when `max(1, burst) <= rps * (600 s + 1 ns - skew)`; above
  that a client that waits out the sweep gets a burst it has not earned (`EvictionIsInvisibleExactlyWhen`).
- `Downstream` is documented as the assets that go dry when a node is isolated. It returns everything
  reachable, which includes all that goes dry (`DryIsDownstream`) but also assets with a second supply
  (`DownstreamMayStayWet`). The documented reading holds exactly when nothing is downstream, or the source
  supplies the node and, searched for without it, meets nothing downstream
  (`DownstreamIsDryExactlyWhen`); for the valve, the one node the server isolates, it does
  (`ShutValveIsExact`). The model follows the code.
- Rejoining `splitOR`'s pieces restores the text exactly when the text is ASCII and does not end in an
  odd chain of separators (`RejoinsExactlyWhen`). It copies byte by byte and re-encodes each, so a printed
  condition means its terms with their metrics re-encoded (`PrintedConditionMeans`), and one term keeps its
  meaning for all values exactly when its metric is ASCII (`PrintedTermKeepsMeaningExactlyWhen`).
- The fire-water engine reads `e.stop` anew whenever a goroutine enters its select, so a restart is clean
  exactly when no earlier goroutine is outside the select, about to launch or in a tick
  (`RereadStartIsCleanExactlyWhen`); one inside keeps the closed channel, and is adopted only if it takes a
  tick that races with the close (`RacingTickAdopts`, `RereadHasOneExactlyWhen`). The fleet and remote-edge
  engines capture the channel and need no such condition (`ExactlyOneWhileRunning`).
- The severity shown for a reading takes low to be bad on every sensor, whatever its mark says (`DirectionIsIgnored`).
  A healthy plant shows fourteen critical readings and a warning on every flag that is up (`HealthyPlantShows`), and
  where high is bad the shown severity contradicts the derived event except at the limit itself
  (`HighAgreesExactlyWhen`).
- Readings stay within their catalogued ranges except the deluge valve's, which is jittered around zero
  (`RangeIsKeptExactlyWhen`). Negative readings are shown up to 0.015 too high: -8 as -7.99 (`ErrorIsBounded`,
  `NearestExactlyWhen`, `ReeferIsShownTooWarm`).
- The backup pump is refused under exactly the one scenario whose events call for it
  (`BackupIsRefusedExactlyWhenCalled`). A burning plant is "ready"; low pressure, a failed pump, a shut valve and a fire
  that only the cameras see never pass the check of their order (`ScenarioAnswers`, `OrderPassesExactlyWhen`).
- The pump's check is published as "header_lps > 5 AND riser_bar > 6", but the rule language has no AND: read in it,
  the text tests the flow alone (`CheckTextAgreesExactlyWhen`).
- The tank drain of the fire and leak scenarios never accumulates (`TankNeverDrains`).
- Draining the alarm book takes two rounds of a quiet tick and acknowledging everything, since a shelved alarm
  is only acknowledged by the first (`TwoRoundsDrain`); a batch still in flight refills it (`LateBatchRefills`).
- The two files never hold half a version: at every moment up to the end of the first operation whose write
  fails, a crash leaves files that open as one of the versions the operations wrote, for a deletion also the
  site without its zones (`RestartAfterCrash`). After that it may not: a put whose write fails stays in memory, and a zone put next can be on disk without its site
  (`FailedPutOrphansZone`, `IntactExactlyWhen`).
- Putting a new site or zone twice is idempotent only if the request sets `active` (`PutSiteAgain`).

## Model

| member | source | states |
|---|---|---|
| `TokenBuckets.TokenBucket.Allow` | internal/httpapi/ratelimit.go:22-36 | one call moves the bucket to its next state and answers whether a token was there after the refill |
| `TokenBuckets.ExactConformance` | internal/httpapi/ratelimit.go:22-36 | for every timestamp sequence, a call is admitted iff every window opened by an earlier admission has room for it, on the running-maximum clock |
| `TokenBuckets.ExactInNanoseconds` | internal/httpapi/ratelimit.go:22-36 | the same of a bucket that starts full, in literal nanoseconds: call n is admitted iff the capacity is a token or more and for every earlier admitted j the admissions since, and one more, fit in max * 10^9 + rate * (elapsed nanoseconds) |
| `TokenBuckets.ClockIsTheMaximum` | internal/httpapi/ratelimit.go:23-30 | the clock of these windows is the latest of the start and the instants so far |
| `TokenBuckets.ConformanceDetermines` | internal/httpapi/ratelimit.go:22-36 | no other sequence of answers conforms at every call |
| `TokenBuckets.LevelIsTightest` | internal/httpapi/ratelimit.go:22-36 | the refilled level equals the tightest window or the capacity |
| `TokenBuckets.OnlyTheRunningMaximumMatters` | internal/httpapi/ratelimit.go:23-30 | out-of-order timestamps are answered as their running maximum |
| `TokenBuckets.AfterIsSound` | internal/httpapi/ratelimit.go:22-36 | tokens stay within 0 and max, parameters never change, `last` is the running maximum |
| `TokenBuckets.NothingMinted` | internal/httpapi/ratelimit.go:22-36 | admissions plus remaining tokens never exceed the initial tokens plus what the growth of the clock earns |
| `TokenBuckets.SegmentBound` | internal/httpapi/ratelimit.go:22-36 | any segment of any run admits at most the capacity plus what the growth of `last` earns |
| `TokenBuckets.DenialsAreFree` | internal/httpapi/ratelimit.go:22-36 | on every clock, in or out of order, deleting denied calls changes no other answer |
| `RateLimiters.RateLimiter.constructor` | internal/httpapi/ratelimit.go:51-62 | an empty limiter whose burst is at least one |
| `RateLimiters.RateLimiter.Allow` | internal/httpapi/ratelimit.go:64-84 | sweep, look up or create, and ask the one bucket; all others keep their state |
| `RateLimiters.RateLimiter.Evict` | internal/httpapi/ratelimit.go:70-74 | deleting while ranging removes exactly the stale buckets |
| `RateLimiters.EvictionIsInvisibleExactlyWhen` | internal/httpapi/ratelimit.go:64-84 | all runs out of order by at most the skew are answered as by a map that never evicts, with a burst of at least one, iff that burst refills in ten minutes and a nanosecond less the skew |
| `RateLimiters.RunSimulates` | internal/httpapi/ratelimit.go:64-84 | on such runs the swept table is the full table minus stale buckets, and the answers agree |
| `RateLimiters.EachClientConforms` | internal/httpapi/ratelimit.go:64-84 | a client's call is admitted iff it fits, in literal nanoseconds, the windows of its own earlier admissions on the running maximum of its own instants; a window is as wide as the configured burst, at least one |
| `RateLimiters.ClientsAreIsolated` | internal/httpapi/ratelimit.go:64-84 | deleting calls of other keys and denied calls of this key leaves this key's other answers unchanged |
| `RateLimiters.ForeverPerKey` | internal/httpapi/ratelimit.go:78-83 | without eviction each key is one bucket fed with its own calls |
| `RateLimiters.ResidencyIsBounded` | internal/httpapi/ratelimit.go:69-77 | for any skew, a resident key was called within ten minutes plus the larger of ten minutes and the skew, and every key called within ten minutes is resident |
| `RateLimiters.NewClientGetsItsBurst` | internal/httpapi/ratelimit.go:51-83 | after any run, of n calls at one instant by a client that has no bucket, exactly the first max(1, burst) are admitted |
| `Alarms.Book.Ingest` | internal/firewater/alarms.go:41-84 | both loops together give each id the outcome of its own events in the batch |
| `Alarms.Book.Ack` | internal/firewater/alarms.go:86-102 | a returned alarm is removed and reported normal, any other becomes acked, an unknown id changes nothing |
| `Alarms.Book.Shelve` | internal/firewater/alarms.go:104-116 | the alarm is shelved until now + d; an unknown id changes nothing |
| `Alarms.Book.List` | internal/firewater/alarms.go:118-126 | every entry once |
| `Alarms.RaisedStep` | internal/firewater/alarms.go:46-75 | ingesting the events of one alarm one by one is the closed form for the batch |
| `Alarms.HitsAreTheEvents` | internal/firewater/alarms.go:46-50 | the events of one alarm in a batch are those of its type that are not informational, in order and as often as they occur |
| `AlarmRuns.NoActiveAlarmIsLost` | internal/firewater/alarms.go:41-116 | in every run each event of the last batch that is not informational stands unack, acked or shelved; an unack entry has such an event in it, a returned one has none; nothing is normal |
| `AlarmRuns.AlarmsAreIndependent` | internal/firewater/alarms.go:41-116 | what becomes of one alarm is decided by it and the operations alone |
| `AlarmRuns.RemovalIsAckOfReturned` | internal/firewater/alarms.go:93-98 | one operation removes an entry iff it acknowledges it while returned |
| `AlarmRuns.OnlyAckOfReturnedForgets` | internal/firewater/alarms.go:93-98 | over a run, an entry that vanished was acknowledged while returned |
| `AlarmRuns.CountsEveryEvent` | internal/firewater/alarms.go:52-74 | count, first and last instant and message account for every event since the creating batch, shelved ones included; unless shelved since, the severity is that of the last of them, the creating batch included |
| `AlarmRuns.ShelfHoldsUntilWoken` | internal/firewater/alarms.go:60-64 | until a batch at or after the shelf time holds its condition, only the tally of a shelved alarm changes |
| `AlarmRuns.WakingUnshelves` | internal/firewater/alarms.go:65-74 | that batch makes it unacknowledged with the batch's last severity |
| `AlarmRuns.ShelvedExactlyUntilWoken` | internal/firewater/alarms.go:60-68 | left alone, an alarm is still shelved iff no batch woke it |
| `AlarmRuns.AckedExactlyWhilePresent` | internal/firewater/alarms.go:69-82 | left alone, an acknowledged alarm stays acknowledged iff no batch misses its condition |
| `AlarmRuns.SeverityIsLastSeen` | internal/firewater/alarms.go:60-74 | an alarm neither shelved nor removed shows the severity it was last ingested with |
| `Plant.Engine.Step` | internal/firewater/engine.go:293-385 | from any values and for any draws the step gives the healthy fleet overwritten by the scenario's table, and its pump state |
| `Plant.Engine.SetHealthy` | internal/firewater/engine.go:387-413 | the base loop and the fixed overrides leave the same healthy fleet whatever was there before |
| `Plant.LimitsAreExact` | internal/firewater/engine.go:293-557 | for every draw, the metrics past the limits at which Derive reports them are exactly those the scenario upsets |
| `Plant.Engine.Tick` | internal/firewater/engine.go:237-273 | the book ingests exactly the scenario's events; the telemetry event comes first when telemetry is on and alerts-only off, otherwise exactly those events are published |
| `Plant.WithoutInfo` | internal/firewater/engine.go:260-268 | filtering in place keeps exactly the events that are not informational, in order |
| `Plant.DeriveReportsExactly` | internal/firewater/engine.go:493-557 | for any values at all, each event is emitted iff its literal readings call for it |
| `Plant.ScenarioIsExact` | internal/firewater/engine.go:293-557 | for every draw, Derive after a step emits exactly the scenario's fixed events, in order and each once |
| `Plant.ExpectedAreDistinct` | internal/firewater/engine.go:493-557 | a scenario's events have pairwise different types and none is informational |
| `Plant.TankNeverDrains` | internal/firewater/engine.go:298-401 | for every draw the tank stays above 85 per cent under every scenario but lowtank, where it stays between 21.6 and 22.4 |
| `Catalogue.DirectionIsIgnored` | internal/firewater/engine.go:433-468 | the shown severity does not depend on which way the sensor is marked bad |
| `Catalogue.HighAgreesExactlyWhen` | internal/firewater/engine.go:433-557 | on the six sensors where high is bad, a reading is shown critical iff Derive counts it, only at the limit itself |
| `Catalogue.LowAgrees` | internal/firewater/engine.go:433-557 | on seven sensors a reading is shown critical iff Derive counts it as past its limit |
| `Catalogue.FlagAgreesExactlyWhen` | internal/firewater/engine.go:433-557 | on the flags the two agree iff the reading is not strictly between zero and one |
| `Catalogue.ValveAgreesExactlyWhen` | internal/firewater/engine.go:433-557 | on the valve they agree iff it is not exactly 20 per cent open |
| `Catalogue.FlowAgreesExactlyWhen` | internal/firewater/engine.go:433-557 | on the flow they agree iff it is high exactly under fire |
| `Catalogue.TankEventIsAsShown` | internal/firewater/engine.go:433-499 | the tank's event has the severity its reading shows |
| `Catalogue.HealthyPlantShows` | internal/firewater/fleet.go:19-95 | for every draw, a healthy plant shows exactly these severities |
| `Catalogue.RangeIsKeptExactlyWhen` | internal/firewater/fleet.go:19-95 | under a scenario a reading stays within its range for every draw iff it is not the deluge valve or there is a fire |
| `Rounding.ErrorIsBounded` | internal/firewater/engine.go:559 | values from -0.005 up are shown to the nearest hundredth, lower ones 0.005 to 0.015 too high |
| `Rounding.NearestExactlyWhen` | internal/firewater/engine.go:559 | a value is shown within half a hundredth iff it is at least -0.005 or midway between two hundredths |
| `Rounding.HundredthsAreShown` | internal/firewater/engine.go:559 | a whole number of hundredths is shown as itself iff not negative, else as one more |
| `Rounding.RoundingIsMonotone` | internal/firewater/engine.go:559 | rounding keeps the order of values |
| `PlantRuns.BookFollowsPlant` | internal/firewater/engine.go:237-273 | in every interleaving of steps, ingestions, scenario changes, acks and shelves the book reflects the scenario it was last shown |
| `PlantRuns.AfterIngestOnlyExpectedStand` | internal/firewater/engine.go:249-252 | right after an ingestion the scenario's alarms stand and every other entry is returned or shelved |
| `PlantRuns.SequentialTick` | internal/firewater/engine.go:237-273 | from any moment, a tick that nothing overtakes shows the book the current scenario |
| `PlantRuns.PumpIsOnExactlyWhen` | internal/firewater/engine.go:293-385 | in every interleaving of scenario changes, steps and ticks, the pump is on iff some step was under fire and no later one under pumpfail, normal or an unknown scenario |
| `PlantRuns.TwoRoundsDrain` | internal/firewater/alarms.go:41-102 | from every moment of every run, two rounds of normal tick and ack-all leave the book empty, whatever happens between them short of shelving |
| `PlantRuns.RoundDrainsExactlyWhen` | internal/firewater/alarms.go:41-102 | one round, run on the plant, empties the book iff nothing is shelved, and leaves nothing shelved |
| `PlantRuns.LateBatchRefills` | internal/firewater/engine.go:249-252 | a batch in flight since before the drain refills the empty book with exactly its own scenario's alarms, each the full record: unacknowledged, counted once, with its event's severity and command |
| `PlantRuns.RoundLeavesTheShelved` | internal/firewater/alarms.go:76-102 | one round leaves exactly the shelved alarms, acknowledged |
| `Interlock.SplitOR` | internal/firewater/interlock.go:147-163 | the index loop returns the pieces of the recursive reading, a last empty one dropped |
| `Interlock.RejoinsExactlyWhen` | internal/firewater/interlock.go:147-163 | joining the pieces gives the text back iff it is ASCII and its trailing chain of separators is even |
| `Interlock.PiecesHaveNoSeparator` | internal/firewater/interlock.go:147-163 | no piece contains the separator, for every text |
| `Interlock.EncodeIsUtf8` | internal/firewater/interlock.go:156-158 | a copied byte from 128 up becomes the two bytes that encode that code point in RFC 3629, section 3 |
| `Conditions.PiecesAreEncoded` | internal/firewater/interlock.go:147-163 | every piece of every text is the UTF-8 encoding of code points below 256, which is how the scanner reads it |
| `Conditions.WhenTrue` | internal/firewater/interlock.go:133-145 | true iff the text is empty or some piece holds |
| `Conditions.NumberReadsBack` | internal/firewater/interlock.go:168-171 | scanning a printed decimal, with or without a plus sign and whatever follows after a blank, gives the number |
| `Conditions.TermReadsBack` | internal/firewater/interlock.go:165-186 | a printed term with any blank-free metric, copied byte by byte, is scanned and compared as itself with its metric re-encoded, for all five operators |
| `Conditions.SpreadTermReadsBack` | internal/firewater/interlock.go:165-186 | the same for any blanks before and between the parts and any text after a blank |
| `Conditions.OtherOperatorsAreFalse` | internal/firewater/interlock.go:172-186 | a term with any other operator is never true |
| `Conditions.LineEndIsFalse` | internal/firewater/interlock.go:168-171 | a line end after the metric makes the scan fail |
| `Conditions.PrintedConditionMeans` | internal/firewater/interlock.go:133-186 | for any blank-free metrics the text of a list of terms splits into the re-encoded terms and is true iff one of them is, or the list is empty |
| `Conditions.PrintedTermKeepsMeaningExactlyWhen` | internal/firewater/interlock.go:133-186 | for all values a printed term is true iff the term is, if and only if its metric is ASCII |
| `Conditions.PrintedConditionKeepsMeaning` | internal/firewater/interlock.go:133-186 | with ASCII metrics the text of a list of terms is true iff some term is, or the list is empty |
| `RuleTable.Evaluate` | internal/firewater/interlock.go:45-67 | for any table: allowed iff no inhibit fires, reasons are the fired inhibits in order, the action is the last fired one |
| `RuleTable.OrderDoesNotMatter` | internal/firewater/interlock.go:45-67 | permuting the table keeps the verdict and the multiset of reasons |
| `RuleTable.RefusalsHaveReasons` | internal/firewater/interlock.go:54-58 | a command is refused iff a reason is given |
| `ShippedRules.PumpMayStartExactlyWhen` | internal/firewater/interlock.go:30-77 | the shipped texts allow the main pump iff its four interlocks are clear; a ready system clears them |
| `ShippedRules.Decide` | internal/firewater/interlock.go:30-67 | over the shipped texts, for every command and all values: refused with exactly these reasons in this order, and ordered this action with this check and probe, at these literal thresholds |
| `ShippedRules.CheckTextAgreesExactlyWhen` | internal/firewater/interlock.go:36-131 | read in the matrix's own language, the text of a check agrees with the program's check iff, for the pump, not only the flow is there; for the flags, they are at most one; for the valve, always |
| `Responses.ScenarioAnswers` | internal/firewater/interlock.go:30-131 | for every draw: exactly lowtank, valve, hydrant, gas and plc leave the system not ready, and each command has the listed refusals, is ordered, and passes its check under exactly the listed scenarios |
| `Responses.ReadyIsAtTheWarnings` | internal/firewater/interlock.go:69-77 | ready iff tank and gas are clear of the literal warnings of the catalogue, the valve passes its check, the three flags are up and one supply is |
| `Responses.OrderPassesExactlyWhen` | internal/firewater/interlock.go:30-131 | for every draw, a command the rules order passes its check at once iff the scenario is freeze, power, fire or gas |
| `Responses.BackupIsRefusedExactlyWhenCalled` | internal/firewater/interlock.go:37 | for every draw, the backup pump is refused iff the derived events call for it |
| `RuleTable.ReadyWhy` | internal/firewater/interlock.go:79-106 | lists exactly the complaints that hold, each once, and only "ready" iff the system is ready |
| `Topology.Downstream` | internal/firewater/topology.go:57-72 | terminates on every edge list and returns exactly the reachable nodes other than id, once each, after a predecessor |
| `Topology.DryIsDownstream` | internal/firewater/topology.go:56-72 | whatever loses its supply when id is isolated is downstream of id |
| `Topology.DownstreamIsDryExactlyWhen` | internal/firewater/topology.go:56-72 | for every edge list, source and id, all that is downstream goes dry iff nothing is downstream, or the source supplies id and is id or reaches no downstream node without the edges of id |
| `Topology.NodeGoesDryExactlyWhen` | internal/firewater/topology.go:56-72 | one downstream node goes dry iff the source supplies id and does not reach the node without the edges of id |
| `Topology.ShutValveIsExact` | internal/firewater/topology.go:26-72 | on the shipped plant exactly the riser is downstream of the valve, and it goes dry when the valve shuts |
| `Topology.PlantIsExact` | internal/firewater/topology.go:26-54 | on the shipped plant exactly the listed assets are downstream of each asset |
| `Topology.IfValveShut` | internal/httpapi/firewater.go:110-113 | the server reports the riser alone |
| `Topology.DownstreamMayStayWet` | internal/firewater/topology.go:26-56 | on the shipped plant the header is downstream of the jockey pump yet keeps a supply |
| `Ticker.Engine.Start` | internal/fleet/sim.go:76-87 | hands out a new open channel iff the engine was stopped |
| `Ticker.Engine.Stop` | internal/fleet/sim.go:115-122 | closes the current channel, which is open, iff running |
| `Ticker.ExactlyOneWhileRunning` | internal/fleet/sim.go:76-122 | in every interleaving exactly one run listens to an open channel while running, none otherwise; no channel is closed twice |
| `Ticker.StaleStaysStale` | internal/fleet/sim.go:83-102 | in any run, a goroutine whose channel was closed never listens again, and once returned stays so |
| `Ticker.StaleRunnerCanReturn` | internal/remoteedge/sim.go:96-122 | in any run, such a goroutine can always return by its own next steps |
| `Ticker.RunKeepsSound` | internal/remoteedge/sim.go:85-132 | channels are created, captured and closed in order, in both capture modes |
| `Ticker.RereadStartIsCleanExactlyWhen` | internal/firewater/engine.go:196-225 | after any run, a start leaves one listener iff no earlier goroutine is about to launch or in a tick; those in their select can all return |
| `Ticker.RereadHasOneExactlyWhen` | internal/firewater/engine.go:196-235 | a whole run has its one listener at every moment iff every restart found no goroutine outside its select and no tick was taken on a closed channel while running |
| `Ticker.RereadAdoptsStaleRunner` | internal/firewater/engine.go:206-213 | start, stop, start before the first select leaves two listeners |
| `Ticker.RacingTickAdopts` | internal/firewater/engine.go:206-222 | a stopped goroutine still in its select becomes a second listener iff it takes the tick instead of returning |
| `JsonStore.WriteAtomic` | internal/jsonstore/jsonstore.go:38-62 | the trace goes from the old directory to the new one system call at a time; in every state of it, whatever call fails, the path holds the old or all of the new contents, and on success the whole temporary file was there before |
| `JsonStore.RebuildsTheMap` | internal/site/store.go:73-82 | any order of a keyed map's records rebuilds the map |
| `JsonStore.LastRecordWins` | internal/site/store.go:73-82 | of the records with one key the last in the file is opened |
| `JsonStore.MissingFileIsEmpty` | internal/jsonstore/jsonstore.go:14-20 | a missing file opens as no records |
| `JsonStore.Persist` | internal/site/store.go:86-100 | writing a map in any order and opening the file gives its stored form, or on a failed call what was there before; its trace leaves no state out |
| `SiteStore.Store.constructor` | internal/site/store.go:62-84 | opening loads both files into maps by id; the log begins with the files as they are |
| `SiteStore.Store.PutSite` | internal/site/store.go:122-152 | validation errors change nothing; otherwise the merged record is stored even when the write fails; the log stays complete, and at every new moment the files hold the old version or the new |
| `SiteStore.PutStoresTheRequest` | internal/site/store.go:128-147 | a put stores every field the request gives; omitted labels become empty; a new site is active and without routing unless given |
| `SiteStore.SiteIsCreatedOnce` | internal/site/store.go:128-147 | a site is created at its first put and keeps that time through all later puts and routings |
| `SiteStore.RoutingIsKept` | internal/site/store.go:139-141 | routing outlives any number of puts that give none |
| `SiteStore.PutsKeepRouting` | internal/site/store.go:122-189 | on the store itself, writes failing or not: after SetRouting, puts that give no routing leave it and the time of creation |
| `SiteStore.Store.DeleteSite` | internal/site/store.go:154-170 | removes the site and exactly its zones; at every new moment the files hold the old version, the site without its zones, or neither, and the middle state is in the log |
| `SiteStore.Store.SetRouting` | internal/site/store.go:172-189 | replaces the routing only; the log stays complete, and at every new moment the files hold the old version or the new |
| `SiteStore.RouteChangesTheRouting` | internal/site/store.go:172-189 | the routing becomes the one given, empty if none is, the update time now, and nothing else changes |
| `SiteStore.Store.PutZone` | internal/site/store.go:213-245 | refuses a zone without a site; otherwise stores the merged record; the log stays complete, and at every new moment the files hold the old version or the new |
| `SiteStore.PutStoresTheZone` | internal/site/store.go:222-240 | a put stores every field the request gives, the name for an omitted code; a new zone is active and created now |
| `SiteStore.TelemetryIsKept` | internal/site/store.go:230-232 | the probe outlives any number of puts that give none |
| `SiteStore.ZoneKeepsItsCreation` | internal/site/store.go:222-240 | the time of creation survives all later puts and probes |
| `SiteStore.Store.SetTelemetry` | internal/site/store.go:247-261 | replaces the probe only; the log stays complete, and at every new moment the files hold the old version or the new |
| `SiteStore.ProbeChangesTheTelemetry` | internal/site/store.go:247-261 | the probe becomes the one given, or none, the update time now, and nothing else changes |
| `SiteStore.Store.DeleteZone` | internal/site/store.go:263-271 | removes one zone; the log stays complete, and at every new moment the files hold the old version or the new |
| `SiteStore.Restart` | internal/site/store.go:62-100 | after a run without write errors, reopening gives the same maps up to nil versus empty label and routing maps |
| `SiteStore.FilesKeepSites` | internal/site/store.go:86-100 | two sites have the same stored form iff they differ at most in nil versus empty maps |
| `SiteStore.FilesKeepZones` | internal/site/store.go:86-100 | the same for zones |
| `SiteStore.RestartAfterCrash` | internal/site/store.go:62-170 | after a crash at any moment of any run up to the end of the first operation whose write fails, reopening gives a store with every invariant, holding one of the versions the operations wrote |
| `SiteStore.FailedPutOrphansZone` | internal/site/store.go:122-245 | from any store, a put of a new site whose write fails and then a put of a zone in it leave files with a zone and no site |
| `SiteStore.IntactExactlyWhen` | internal/site/store.go:62-84 | once the zones file holds a map, the files open with integrity iff the sites file has every zone's site |
| `SiteStore.SitesFirstIsSafeExactlyWhen` | internal/site/store.go:160-169 | had the sites been written first, the moment in between would be safe iff the site had no zones |
| `SiteStore.PutSiteAgain` | internal/site/store.go:128-147 | a repeated put only moves updatedAt iff the record existed or the request sets active |
| `SiteStore.PutZoneAgain` | internal/site/store.go:222-240 | the same for zones |
| `LogRing.Ring.constructor` | internal/logbuf/logbuf.go:19-24 | an empty ring of capacity at least 32 |
| `LogRing.Ring.Append` | internal/logbuf/logbuf.go:35-55 | the history grows by the stamped trimmed text if any is left; the shifted buffer stays its last cap lines |
| `LogRing.Ring.ShiftLeft` | internal/logbuf/logbuf.go:50 | the in-place copy moves every line one place down |
| `LogRing.Ring.Lines` | internal/logbuf/logbuf.go:57-66 | a copy of the last n held lines, all when n is not positive or too large |
| `LogRing.Replay` | internal/logbuf/logbuf.go:35-55 | after any run of appends the ring holds the last min(cap, total) lines of the full history |
| `LogRing.SkippedExactlyWhen` | internal/logbuf/logbuf.go:36-45 | a text is skipped iff it is only line ends, and no stored line ends in one |
| `LogRing.LoggedLine` | internal/logbuf/logbuf.go:35-46 | a logged line is the stamp, "Z ", and the text without the line ends it ends in |
| `Simulator.Apply` | internal/fleet/sim.go:135-175 | writing a table one metric at a time, in any order, gives every metric its write and leaves the others |
| `Simulator.FullTableForgets` | internal/remoteedge/sim.go:147-157 | a table that writes every metric without reading it forgets the values before |
| `Simulator.DrawsStayInRange` | internal/firewater/engine.go:291 | for every draw a jittered value stays within half its amplitude of its centre, and a drained one above its floor |
| `Fleet.Engine.Tick` | internal/fleet/sim.go:123-175 | whatever the values and draws, the snapshot gives exactly the scenario's events |
| `Fleet.LimitsAreExact` | internal/fleet/sim.go:135-236 | for every draw, the metrics past their limits are exactly those the scenario upsets |
| `Fleet.ScenarioIsExact` | internal/fleet/sim.go:135-236 | for every draw, a step under a scenario makes Derive emit exactly its events |
| `Fleet.DeriveReportsExactly` | internal/fleet/sim.go:210-236 | for any values at all, each event is emitted iff its literal readings call for it |
| `Fleet.ReeferIsShownTooWarm` | internal/fleet/sim.go:163-196 | for every draw, the heatwave sets the reefer to -8 and its reading shows -7.99 |
| `RemoteEdge.Engine.Tick` | internal/remoteedge/sim.go:134-188 | whatever the values and draws, the snapshot gives exactly the scenario's events |
| `RemoteEdge.LimitsAreExact` | internal/remoteedge/sim.go:147-268 | for every draw, the metrics past their limits are exactly those the scenario upsets |
| `RemoteEdge.ScenarioIsExact` | internal/remoteedge/sim.go:147-268 | for every draw, a step under a scenario makes Derive emit exactly its events |
| `RemoteEdge.DeriveReportsExactly` | internal/remoteedge/sim.go:189-268 | for any values at all, each event is emitted iff its literal readings call for it |
| `RemoteEdge.LinkIsExact` | internal/remoteedge/sim.go:190-197 | the link mode under each scenario: cellular when only the satellite is down, offline when nothing is left |

## Left out

- HTTP handlers, SSE streaming, authentication, metrics, TLS, the web UI and `internal/relaypub`: plumbing over libraries.
- Floating-point rounding, NaN and infinities; the saturation of `time.Duration` at 292 years; clock readings before year 1.
- WhenTrue: reads numbers as `ScanNumber` does, so a text whose number has an exponent, underscores, a hexadecimal form or is infinite may be judged otherwise; the scanner of the fmt package is not part of this model.
- ScanNumber: reads decimal numbers only; exponents, underscores, hexadecimal, infinity and NaN, which Sscanf's `%f` also accepts, are not part of this model.
- WriteAtomic: the removal of the temporary file after a failed call is assumed to succeed; the file's bytes are whole records.
- Metric and scenario names of the simulators, commands and assets are enumerations (scenarios and commands with unlisted names); the text of messages, the data payload of events and the severities of fleet and remote-edge readings are not modelled.
- Rounded: converts to an unbounded integer; the simulated values are far from where Go's conversion overflows.
- The alarm book's pointers are modelled as values in the map: the book hands out copies only, so nothing is shared.
- Go's fairness between ready select cases, and ticker intervals: a run may take any enabled step, so a goroutine is proved able to return, not bound to.
- Power loss (the directory is not fsynced), corrupt JSON and `LoadSlice` read errors.
- Which files a crash leaves after the first operation whose write fails: memory is ahead of the files then, and the code promises nothing.
- Device and contact stores, seasons, names and vendors of the catalogue, Sparkplug and Modbus codecs: they would add only easy members.
