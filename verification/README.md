# Frontik: a Dafny model of its protocols

Frontik is a multi-process ASGI server. A master process follows service discovery and replicates
upstreams to its workers over pipes; the workers route requests and adapt the Tornado connection to
the ASGI message protocol. This project models the parts where steps of different threads,
processes or callbacks interleave, or where a fast form must agree with a simple one, and proves
what holds for every input, every interleaving or every history.

| file | what it models |
|---|---|
| `Framing.dfy` | the byte stream from master to worker and the worker's incremental listener |
| `Links.dfy` | the master's writes to non-blocking pipes, the marks, the repair round |
| `WakeUp.dfy` | sender, resend and supervisor threads around `resend_dict` and its one-slot queue |
| `Discovery.dfy` | listener threads that write per-datacenter caches and rebuild upstreams under a lock |
| `Replication.dfy` | fork-time snapshots, the full send, single updates, resends; master and replicas |
| `SelfHealing.dfy` | the previous ones together: damaged streams, marks, rounds, and the replica that results |
| `Routing.dfy`, `Lookups.dfy` | the sorted routing table, the scan, `find_route` and the methods it changes |
| `DevRoutes.dfy`, `LazyRoutes.dfy` | the on-demand route cache: warm start and lazy import |
| `Exchange.dfy`, `Upload.dfy` | one request's response on the wire; its body on the way to the application |
| `LogLevels.dfy` | periodic log-level overrides over loggers and shared-nothing handler objects |
| `Deadline.dfy` | deadlines handed down a chain of calls |
| `Barrier.dfy`, `Supervisor.dfy` | the start-up barrier and the supervision loop |

Conventions. A protocol is a state, an action type and a partial function from both to the next state;
theorems quantify over all sequences of enabled actions. Where the source updates an object step by
step, a class has its fields and each method is proved equal to the step it performs. Library
behaviour that is not part of the repository enters as a parameter: the path matcher, the pickle
codec, the debug transform, how each pipe call ends, what an import registers.

Where the code does less than one might expect, the code is modelled as it is, the failing case is a
lemma, and the exact condition is another one:

* The dump is written twice so that one copy fills the gap of a cut frame. The second copy arrives
  exactly if the gap is at most one frame and what is left of the first copy is within the listener's
  separator-search limit (`SecondCopyArrives`, `RoundHeals`); beyond the limit `readuntil` raises, the loop
  swallows the error without consuming anything, and the listener never reads again
  (`LargeDumpWedges`, with asyncio's default of 64 KiB).
* A worker whose pipe is full already at the header is not marked for a resend
  (`SilentLossIsABlockedHeader`); every other damage is marked, over any history of updates and rounds
  (`MarkedUntilUpToDate`, and `BlockedHeaderGoesUnseen` for what happens without that condition). If the header was cut within the separator, later frames still arrive
  exactly if the cut piece is within the search limit; if it was cut within the size, the listener
  takes the next separator for a size and hears nothing more (`CutHeaderEffect`, `DeafInSize`).
* A restart mark placed between a round's snapshot and its clear is wiped without a resend
  (`LateMarkIsWiped`, `RestartMarkCanBeLost`); every other mark is served by the round that clears it
  (`MarkIsServed`; both directions in `RestartMarkServedExactly`).
* Two overlapping updates of an upstream the master knows can be sent in the order opposite to the one
  they were published in, and the workers keep the older one (`OverlappingSendsDiverge`). The update that
  introduces an upstream cannot be overtaken: its object becomes the published one, later rebuilds change
  it in place, and it is pickled only when it is sent (`FirstUpdateCannotBeOvertaken`). In any run at all a
  worker agrees on an upstream exactly if the last thing it was told about it is its last rebuild
  (`AgreementExactly`); updates sent in turn, and so updates that do not overlap, suffice
  (`ReplicaAgreement`, `SerialIsOrdered`, `SerialTellsTheLast`).
* Cache keys of different upstreams and datacenters can collide, exactly if a datacenter's name ends in
  a dash and another one's name (`CacheKeysStayApart`).
* A page that was excluded as routeless and gains routes is not noticed by a warm start
  (`ExcludedPageHides`); `WarmStartEqualsColdStart` has the exact condition for one start and
  `EveryRestartIsCold` for any number of them.
* HEAD lookups depend on earlier HEAD lookups (`HeadDependsOnHistory`; `HeadAfterHistory` says exactly when).
* On-demand import can answer 404 where a full import answers 405, or list fewer methods in Allow
  (`LazyCanMiss405`; `LazyUnservedAnswer` says exactly when).
* A streamed response to HEAD withholds only the first chunk from the connection; all later ones are passed
  to `connection.write` (`HeadSendsSecondChunk`; `BodyIsWhatWasSent` says exactly when no byte is).
* A full upload queue swallows the end marker, and the application is never told that the body has ended
  (`FullQueueSwallowsEnd` is a run that gets there; `EndOfBody`: exactly if the queue has no room at that
  moment).
* The start-up can be given up although the last worker has just counted down, because the clock is read
  after the counter (`LateTimeout`).

## Model

| member | source | states |
|---|---|---|
| `Framing.SizeRoundTrip` | frontik/process.py:293 | every size below 2^64 survives packing into eight bytes and unpacking |
| `Framing.FindIsFirst` | frontik/process.py:215 | the search returns the first occurrence of the separator, and nothing only if there is none |
| `Framing.StepIsMonotone` | frontik/process.py:213-221 | a read that can finish finishes the same way, with the same payload, however many bytes follow |
| `Framing.ChunkingIsIrrelevant` | frontik/process.py:208-221 | from any waiting state, feeding chunks one by one gives the same deliveries and final state as feeding their concatenation |
| `Framing.RoundTrip` | frontik/process.py:213-221 | a stream of complete frames is read back as exactly its payloads, whatever they contain |
| `Framing.FramingRoundTrip` | frontik/process.py:208-221 | the same for every way the pipe splits the bytes |
| `Framing.FindPastJunk` | frontik/process.py:215 | after separator-free junk the first separator found is that of the next frame: no occurrence straddles the boundary |
| `Framing.SplitAtOffset` | frontik/process.py:213-215 | from any offset, a stream of clean frames is separator-free junk followed by the frames that start at or after the offset |
| `Framing.CleanMeansOnlyStarts` | frontik/process.py:33 | the separator occurs in a stream of frames only where frames start if and only if it occurs in no frame's size and payload: none can straddle two frames |
| `Framing.Resynchronises` | frontik/process.py:213-226 | a listener inside a payload with bytes missing delivers that payload completed from what follows, then exactly the frames that start beyond the gap, or none if the next start is beyond the limit |
| `Framing.ResynchronisesAfterCut` | frontik/process.py:291-302 | the same for a frame cut after its header, from its first byte on |
| `Framing.SecondCopyArrives` | frontik/process.py:269-271 | of two identical copies the second is delivered if and only if the gap is at most one frame and the remainder within the limit; with a larger remainder the listener is stuck |
| `Framing.LargeDumpWedges` | frontik/process.py:213-226 | a 64 KiB dump after a one-byte gap leaves the listener stuck with the dump undelivered |
| `Framing.WorkerListener.DataReceived` | frontik/process.py:208-226 | one chunk moves the listener and its deliveries exactly as the pure reader says |
| `Links.WorkerLinks.SendUpdate` | frontik/process.py:284-304 | bytes accepted, mark and token for each way the header, data and flush calls can end; no other worker changes |
| `Links.WorkerLinks.SendToAll` | frontik/process.py:274-281 | every pipe in turn gets the update |
| `Links.WorkerLinks.ResendRound` | frontik/process.py:255-271 | snapshot, clear, and two writes per client that still has a pipe |
| `Links.SendEachEffect` | frontik/process.py:274-304 | per worker: its own accepted bytes once, and a mark exactly if it blocked after its header |
| `Links.SendEachNotifies` | frontik/process.py:297-302 | the token is put exactly if some worker blocked after its header |
| `Links.RoundEffect` | frontik/process.py:255-271 | per worker: two copies for a client with a pipe, nothing for others, marked again exactly if one copy blocked after its header |
| `Links.SilentLossIsABlockedHeader` | frontik/process.py:291-302 | an update is neither delivered nor marked if and only if the header write blocked |
| `Links.BlockedAfterHeaderIsMarked` | frontik/process.py:291-302 | a worker is marked by an update, and the token is there, exactly if the call that ended its update was a blocked payload or flush after a complete header |
| `Links.FailedCallEffect` | frontik/process.py:291-304 | a call that fails otherwise never marks; a failed header loses this update only, a failed payload leaves the listener waiting for it |
| `Framing.DeafInSize` | frontik/process.py:215-221 | a listener that waits inside the size field delivers nothing from any complete frames of less than 2^48 bytes together |
| `Links.CutHeaderEffect` | frontik/process.py:291-302 | an update whose header was cut leaves no mark; cut within the separator, complete later updates are delivered if and only if the piece is within the search limit; cut within the size, nothing later is delivered in less than 2^48 bytes |
| `Links.RoundHeals` | frontik/process.py:255-271 | after any byte history, what two complete copies add to the deliveries, for every state the listener can wait in |
| `Links.BlockedUpdateIsRepaired` | frontik/process.py:243-304 | any updates, one cut update, one round: the worker is marked, keeps the earlier payloads and gets the dump exactly under the gap condition |
| `WakeUp.RunKeepsInv` | frontik/process.py:243-310 | every interleaving keeps lock ownership and the wake-up invariant |
| `WakeUp.NoLostWakeUp` | frontik/process.py:243-310 | with marks present and nobody between mark and notify, a token is queued or in the resend thread's hand |
| `WakeUp.BlockedWriteIsMarked` | frontik/process.py:284-302 | a sender whose write blocked marks that worker and then puts the token before it goes on or gives back the lock |
| `WakeUp.BlockedTryIsMarked` | frontik/process.py:269-302 | the same for the resend thread and each copy of the dump |
| `WakeUp.SenderWritesToAll` | frontik/process.py:274-281 | a sender writes to each of its workers before it gives back the lock |
| `WakeUp.HolderGoesOn` | frontik/process.py:243-304 | in every run whoever has the lock is inside its section and can take a step |
| `WakeUp.BlockedWriteIsRepaired` | frontik/process.py:243-304 | a complete run from the start: one blocked write, its mark, the round with two copies, and everything as before |
| `WakeUp.StepKeepsDue` | frontik/process.py:255-271 | no step lowers the number of dumps owed to a worker except a try for it, by one, or finding its pipe gone |
| `WakeUp.MarkIsServed` | frontik/process.py:255-271 | a mark placed in time is still there at the next clear, the round that clears it has it in its snapshot, and that round tries its pipe twice or finds it gone |
| `WakeUp.ForgottenOnlyAfterTries` | frontik/process.py:255-271 | whenever such a mark is gone and no round works on it, two tries were made or the pipe was found gone |
| `WakeUp.LateMarkIsWiped` | frontik/process.py:257-261 | a restart mark between snapshot and clear is removed by the next clear, whatever comes before it, with no try made or owed |
| `WakeUp.RestartMarkServedExactly` | frontik/process.py:255-310 | the round whose clear follows a restart mark has the worker to serve if and only if the mark was not placed between its snapshot and that clear |
| `WakeUp.RestartMarkCanBeLost` | frontik/process.py:307-310 | a complete run from the start in which a restarted worker with an open pipe is never tried |
| `Discovery.CacheKeysStayApart` | frontik/service_discovery.py:248 | cache keys are injective for all upstream names if and only if no datacenter name ends in a dash and another datacenter name |
| `Discovery.NoDashIsEnough` | frontik/service_discovery.py:292 | datacenter names without dashes satisfy that condition |
| `Discovery.MasterServiceDiscovery.CombineServers` | frontik/service_discovery.py:289-295 | the cached servers of all configured datacenters in order |
| `Discovery.MasterServiceDiscovery.UpdateUpstreams` | frontik/service_discovery.py:262-273 | publishes the key's combined servers and config, and nothing else |
| `Discovery.MasterServiceDiscovery.UpdateUpstreamsService` | frontik/service_discovery.py:243-249 | no report changes nothing; a report replaces one cache entry and republishes its upstream |
| `Discovery.MasterServiceDiscovery.UpdateUpstreamsConfig` | frontik/service_discovery.py:251-260 | known upstreams with a value get the last value listed and are republished, all others are unchanged |
| `Discovery.LastEntryWins` | frontik/service_discovery.py:251-260 | the last entry with a value for a known upstream decides its config, whatever it was before |
| `Discovery.UnlistedKeepsConfig` | frontik/service_discovery.py:251-260 | an upstream without such an entry keeps its config, or has none as before |
| `Discovery.ListedMeansCounting` | frontik/service_discovery.py:251-260 | exactly the upstreams with such an entry are republished |
| `Discovery.RunKeepsInv` | frontik/service_discovery.py:243-295 | every interleaving keeps: rebuilds hold the lock, and each is up to date so far or sure to be followed by another |
| `Discovery.CombineIsLastReports` | frontik/service_discovery.py:243-249 | the caches hold each datacenter's last report of the run |
| `Discovery.QuiescentAgreement` | frontik/service_discovery.py:243-295 | for every upstream a rebuild is pending or the published upstream is made of the last reports of all configured datacenters and the last config |
| `Discovery.EveryRunCanSettle` | frontik/service_discovery.py:262-273 | from every reachable state the rebuilds under way can finish without new reports, and then every upstream is published from the last reports and config |
| `Discovery.ReportsNeverWait` | frontik/service_discovery.py:243-260 | cache and config writes do not wait for the lock |
| `Replication.WorkerServiceDiscovery.UpdateUpstreams` | frontik/service_discovery.py:306-320 | a message's upstreams replace or extend the worker's, in order |
| `Replication.DumpRepairs` | frontik/service_discovery.py:306-320 | a full dump makes any replica equal to the master's upstreams if and only if the replica knows no others |
| `Replication.StepPosts` | frontik/process.py:255-281 | an event puts one message into each pipe it writes to, a resend round two |
| `Replication.StepKeepsInv` | frontik/service_discovery.py:262-282 | each event, an update being sent in its turn, keeps every dumped worker in sync up to updates about to be sent |
| `Replication.SendOutOfTurnBreaksSync` | frontik/service_discovery.py:262-275 | a send out of turn leaves every dumped worker out of sync, so the condition on a step is exact |
| `Replication.ReplicaAgreement` | frontik/server.py:91-92 | in every run that sends in turn, each registered worker that got a full dump agrees with the master on all upstreams not about to be sent, and equals it when nothing is in flight |
| `Replication.SerialIsOrdered` | frontik/service_discovery.py:262-275 | runs in which updates of one upstream do not overlap send in turn |
| `Replication.WorkerHoldsWhatItWasTold` | frontik/service_discovery.py:306-320 | in any run a worker, once it has read its pipe, holds for every upstream what the last snapshot, update or dump told it; the thread that introduced an upstream tells its last rebuild by anyone |
| `Replication.AgreementExactly` | frontik/service_discovery.py:262-320 | in any run a worker with an empty pipe agrees with the master on an upstream if and only if the last value it was told is the last one rebuilt |
| `Replication.SerialTellsTheLast` | frontik/service_discovery.py:262-275 | runs without overlapping updates meet that condition for every worker that got a dump, once nothing is left to send |
| `Replication.SnapshotHolds` | frontik/process.py:156-158 | a worker forked at any point is, even before its first dump, behind on an upstream only if that was rebuilt after its snapshot |
| `Replication.OverlappingSendsDiverge` | frontik/service_discovery.py:262-275 | from any quiet state, two overlapping updates of a known upstream leave worker and master different with nothing left to send |
| `Replication.FirstUpdateCannotBeOvertaken` | frontik/service_discovery.py:270-282 | the same two updates of an upstream not yet known leave them equal: the first thread sends the published object as the second updated it |
| `Replication.WorkerJoins` | frontik/process.py:143-169 | one upstream and one worker from publication through fork, registration and full send to the replica read from the pipe |
| `SelfHealing.WorkerHeals` | frontik/process.py:255-271 | after any damage within reach, a round leaves the worker with the master's upstream for every name the master knows |
| `SelfHealing.MarkedUntilUpToDate` | frontik/process.py:243-310 | over any history of updates, restart marks and rounds, with payloads cut anywhere: a worker whose headers get out and whose rounds meet it within reach is marked, or waits between frames with the master's upstream for every name the master knows |
| `SelfHealing.BlockedHeaderGoesUnseen` | frontik/process.py:291-302 | an update with a blocked header leaves no mark, and the worker is up to date only if no byte got out and it held that state already |
| `SelfHealing.ForkedIsUpToDate` | frontik/process.py:156-163 | a forked worker starts up to date |
| `SelfHealing.MarksChange` | frontik/process.py:243-310 | who is marked after a publication, a round and a restart |
| `SelfHealing.HandleIsApply` | frontik/process.py:220-226 | after any payloads a worker holds what one message with the upstreams of all that load would give |
| `SelfHealing.LastPayloadWins` | frontik/server.py:100-101 | whatever was handled before, a final full dump decides every name the master knows |
| `Routing.SortKeyMeansMoreSpecific` | frontik/routing.py:29-44 | the sort key orders exactly by: literal, parametric, mount; more segments; a literal at the first segment whose kind differs |
| `Routing.KeysOrdered` | frontik/routing.py:29-44 | sort keys are totally and strictly ordered |
| `Routing.SplitJoins` | frontik/routing.py:33 | joining the pieces of a path gives it back, and no piece has a slash |
| `Routing.JoinSplits` | frontik/routing.py:33 | and they are the only such pieces |
| `Routing.ParametersAreBraces` | frontik/routing.py:24-34 | a route has parameters if and only if its path has an opening brace |
| `Routing.SortSorts` | frontik/routing.py:111 | the sorted table is in key order |
| `Routing.SortPermutes` | frontik/routing.py:111 | it has the same routes |
| `Routing.SortIsStable` | frontik/routing.py:111 | routes with equal keys keep their order |
| `Routing.StableSortIsUnique` | frontik/routing.py:111 | any sorted table with the same order within each key is this one |
| `Routing.ResortAfterAppend` | frontik/dev_route_manager.py:279 | sorting again after appending equals sorting everything once |
| `Routing.ScanFindsChoice` | frontik/routing.py:133-144 | the first match in the sorted table is the most specific matching route, the earliest registered among equals; no match only if none matches |
| `Routing.ChoiceIsUnique` | frontik/routing.py:133-144 | there is at most one such choice |
| `Lookups.Router.FindExact` | frontik/routing.py:133-144 | the first route that serves path and method |
| `Lookups.Router.FindPartial` | frontik/routing.py:120-130 | the union of the methods of routes that match the path only and do not list OPTIONS |
| `Lookups.Router.FindRoute` | frontik/routing.py:147-200 | outcome and changed method sets for every request, including the HEAD and OPTIONS fallbacks |
| `Lookups.Answer` | frontik/routing.py:160-204 | found exactly the first serving route; preflight exactly for unserved OPTIONS; 405 exactly if none serves and some offering route matches, with Allow its exact methods; 404 otherwise |
| `Lookups.HeadAnswer` | frontik/routing.py:165-182 | HEAD gets the first route that lists it, else the first that serves GET, else 405 with exactly the offering methods or 404; never the preflight route |
| `Lookups.LookupChanges` | frontik/routing.py:165-195 | a lookup changes at most the methods of the route it chooses, by the request's method, and by GET and HEAD on a fallback for HEAD |
| `Lookups.OneRoute` | frontik/routing.py:133-200 | on a table of one route the answer to any request other than HEAD, spelled out: mounts take every method |
| `Lookups.CaseOfMethod` | frontik/routing.py:156 | a lower-case method finds the route its upper-case form finds |
| `Lookups.UpperMeans` | frontik/routing.py:156 | upper case: the letters a to z have capitals, other characters are kept |
| `Lookups.NormalizeMeans` | frontik/routing.py:150-151 | the root path is kept, any other path loses its trailing slashes and nothing else |
| `Lookups.MostSpecificRouteWins` | frontik/routing.py:133-144 | on the sorted table the found route is the declarative choice among the registered ones |
| `Lookups.ChosenRouteAccepts` | frontik/routing.py:165-187 | after a lookup with an upper-case method the chosen route lists that method |
| `Lookups.HistoryGrows` | frontik/routing.py:165-170 | after any lookups every table route has gained at most HEAD, and only if it serves GET |
| `Lookups.HistoryIndependence` | frontik/routing.py:147-204 | after any lookups a request other than HEAD gets the answer of the fresh table, up to HEAD in Allow |
| `Lookups.HeadAfterHistory` | frontik/routing.py:165-170 | HEAD gets the answer of the fresh table if and only if no route that gained HEAD disturbs it |
| `Lookups.HeadDependsOnHistory` | frontik/routing.py:165-170 | two routes and one earlier HEAD request that change the answer to another |
| `Lookups.NormalizeTwice` | frontik/routing.py:150-151 | stripping trailing slashes is idempotent, so the nested GET lookup sees the same path |
| `DevRoutes.GetDiff` | frontik/dev_route_manager.py:39-90 | exactly the endpoints only cached and only on disk and not excluded, leaving out pathless entries, each with the mtime listed last for it |
| `DevRoutes.DevRouteManager.AddFakeRoute` | frontik/dev_route_manager.py:243-254 | one map entry and one fake route |
| `DevRoutes.RouteKeyMeans` | frontik/dev_route_manager.py:247 | two routes have the same key if and only if they have the same upper-case method and path |
| `DevRoutes.EveryRouteIsKept` | frontik/dev_route_manager.py:243-249 | the values of the map are exactly the recorded routes |
| `DevRoutes.ShortStarts` | frontik/dev_route_manager.py:197-205 | a start imports only what has changed if and only if at most 15 new pages and changed routes are found |
| `DevRoutes.DevRouteManager.ProcessRoutes` | frontik/dev_route_manager.py:227-241 | every registered route is recorded with its page's stamp |
| `DevRoutes.DevRouteManager.KeepUnchanged` | frontik/dev_route_manager.py:189-195 | cached routes of untouched, undeleted pages are recorded, those of touched pages returned |
| `DevRoutes.DevRouteManager.ImportAllPages` | frontik/dev_route_manager.py:165-211 | the map and the fake table a start builds on each of its paths, and the cache and exclude list it saves |
| `DevRoutes.WarmIsCold` | frontik/dev_route_manager.py:165-211 | a warm start records what a full import records if and only if it is over the change limit or hides no page |
| `DevRoutes.WarmStartEqualsColdStart` | frontik/dev_route_manager.py:165-262 | the same for the route maps themselves |
| `DevRoutes.EveryRestartIsCold` | frontik/dev_route_manager.py:165-269 | over any number of restarts, with edits that change mtimes, every saved cache is that of a full import if and only if no start below the limit leaves out a page without routes at the last full import that has since gained some in the same file |
| `DevRoutes.HidesIsMissed` | frontik/dev_route_manager.py:165-224 | what a start hides, told from the worlds at the last full import, at the previous start and now |
| `DevRoutes.ExcludedPageHides` | frontik/dev_route_manager.py:174-211 | one excluded page that gained one route: the warm map is empty, the cold one has the route |
| `DevRoutes.DevRouteManager.CreateRouteMap` | frontik/dev_route_manager.py:213-225 | a full import records every route and excludes exactly the pages without a recorded one |
| `DevRoutes.ColdExcludesRouteless` | frontik/dev_route_manager.py:219-224 | the exclude list of a full import is exactly the pages without routes |
| `LazyRoutes.FakePrefixKeepsOrder` | frontik/dev_route_manager.py:253 | the /fake prefix preserves and reflects the sort order |
| `LazyRoutes.LazyTable.Import` | frontik/dev_route_manager.py:271-279 | the module found for the request and those it imports are loaded in order, each once, and the table stays the sorted list of all loaded routes |
| `LazyRoutes.ImportLoadsExactly` | frontik/dev_route_manager.py:271-279 | an import loads the target's module and all it imports, each once and whole, and no others; nothing if it was there |
| `LazyRoutes.LazyRefinesEager` | frontik/dev_route_manager.py:271-279 | from any start and after any history, the route chosen after the import is the one the full table chooses |
| `LazyRoutes.LazyFindsEagerRoute` | frontik/dev_route_manager.py:271-279 | the same for whole lookups: both tables find the same route or none |
| `LazyRoutes.WarmAndLazyIsEager` | frontik/dev_route_manager.py:165-279 | the same on top of a warm start that hides nothing |
| `LazyRoutes.UnservedImportsNothing` | frontik/dev_route_manager.py:271-277 | a request no route serves leaves the loaded routes as they are |
| `LazyRoutes.LazyUnservedAnswer` | frontik/routing.py:178-204 | an unserved request other than HEAD and OPTIONS gets, after any history, 404 or 405 as from the full table if and only if a route to offer is loaded whenever there is one, and the same Allow if and only if the loaded routes on the path have all their methods |
| `LazyRoutes.LazyCanMiss405` | frontik/dev_route_manager.py:271-279 | one unimported POST route: 405 for GET after a full import, 404 on demand |
| `Exchange.Handler.SendBody` | frontik/handler_asgi.py:158-173 | the state and the connection call for a body message on each of its four paths |
| `Exchange.Handler.EndHeaders` | frontik/handler_asgi.py:167-168 | the end of the header write, with or without a closed stream |
| `Exchange.Handler.FailHeaders` | frontik/handler_asgi.py:167-168 | a header write that raises anything else leaves the headers unwritten |
| `Exchange.Handler.OnConnectionClose` | frontik/handler_asgi.py:201-215 | nothing once the response is done, otherwise one 499 record and cancellation |
| `Exchange.Handler.ResumeServe` | frontik/handler_asgi.py:54-64 | drops a cancelled request, writes missing headers, or goes on to finish |
| `Exchange.Handler.BeginHeaders` | frontik/handler_asgi.py:236-246 | headers with the chunk, without it for HEAD |
| `Exchange.ResponseWireSafety` | frontik/handler_asgi.py:54-69 | in every run, also when header writes raise: headers go out at most once and first; a served request is headers, chunks, finish; at most one access-log record, exactly one with the final status if served |
| `Exchange.UncancelledIsServed` | frontik/handler_asgi.py:59-69 | a returned, uncancelled request is completed by the remaining steps: the exact wire, one header write and one record in all |
| `Exchange.DisconnectCancelsUnlessDone` | frontik/handler_asgi.py:201-215 | a disconnect after an empty last chunk, sent after the headers, changes nothing but the callback; any other cancels with one 499 record |
| `Exchange.CancelledExactly` | frontik/handler_asgi.py:158-215 | in a run with a disconnect the request ends cancelled if and only if it came before such a chunk |
| `Exchange.CancelledIsNeverServed` | frontik/handler_asgi.py:59-62 | a request cancelled before serve_tornado_request resumes is never finished, whatever follows |
| `Exchange.LostUploadIsNeverServed` | frontik/tornado_connection_handler.py:61-66 | the same for a connection lost during the upload |
| `Exchange.LoggedStatus` | frontik/handler_asgi.py:54-69 | a served request is logged with the last status set by the application, a rejection or a closed stream |
| `Exchange.PlainResponse` | frontik/handler_asgi.py:153-173 | a start, two chunks, an empty last one: headers with the first chunk, the second chunk, finish, one record |
| `Exchange.RejectedResponse` | frontik/handler_asgi.py:77-82 | a rejected request gets its status with an empty body |
| `Exchange.FailedHeadersAreWrittenAtTheEnd` | frontik/handler_asgi.py:64-66 | headers whose write raised are written at the end, without a body |
| `Exchange.FailedFinalHeaders` | frontik/handler_asgi.py:64-66 | if the last header write raises nothing is finished or logged |
| `Exchange.FirstBodyWritesHeaders` | frontik/handler_asgi.py:153-168 | the first body message writes headers with the last status started and its own chunk |
| `Exchange.DebugResponse` | frontik/handler_asgi.py:93-95 | in debug mode the only write is one of headers with the transform of the last status and of all chunks sent |
| `Exchange.BodyIsWhatWasSent` | frontik/handler_asgi.py:158-173 | outside debug mode the bytes written are the concatenated chunks; for HEAD they are empty if and only if all chunks after the first are |
| `Exchange.HeadSendsSecondChunk` | frontik/handler_asgi.py:158-173 | a HEAD request answered in two chunks: the second is written |
| `Upload.UploadQueue.Finish` | frontik/tornado_connection_handler.py:56-59 | marks the upload finished and queues the end marker if there is room |
| `Upload.UploadQueue.OnConnectionClose` | frontik/tornado_connection_handler.py:61-66 | finished, cancelled and an end marker if there is room |
| `Upload.UploadQueue.Receive` | frontik/handler_asgi.py:129-148 | the message for the next queue item in each state |
| `Upload.UploadStreaming` | frontik/handler_asgi.py:129-148 | in every interleaving: bodies seen are an in-order prefix, the last message comes only after all of them, nothing is lost before cancellation |
| `Upload.CancelledOnlyDisconnects` | frontik/handler_asgi.py:132-135 | after a cancellation, whatever follows, every further message is a disconnect |
| `Upload.LossWakesReceiver` | frontik/tornado_connection_handler.py:61-66 | after a lost connection a receive always returns, with a disconnect; after the close callback alone only if something is queued |
| `Upload.EndOfBody` | frontik/tornado_connection_handler.py:56-59 | after an uncancelled end of the upload, draining the queue delivers its chunks and then exactly one message that there is no more, last, if and only if the queue had room |
| `Upload.FullQueueSwallowsEnd` | frontik/tornado_connection_handler.py:56-59 | a run that fills the queue, ends the upload and drains it: every chunk is seen and the end is not |
| `Upload.DrainedIsComplete` | frontik/tornado_connection_handler.py:51-54 | in every uncancelled run an application that has drained the queue has seen every uploaded chunk |
| `LogLevels.LoggingConfigurator.SetHandlers` | frontik/loggers/logleveloverride/logging_configurator_client.py:65-66 | exactly the given handlers get the level |
| `LogLevels.LoggingConfigurator.CopyRootHandlers` | frontik/loggers/logleveloverride/logging_configurator_client.py:50-53 | one new handler per root handler, at the level |
| `LogLevels.LoggingConfigurator.ApplyOverride` | frontik/loggers/logleveloverride/logging_configurator_client.py:39-55 | one entry of the list |
| `LogLevels.LoggingConfigurator.ResetLogLevel` | frontik/loggers/logleveloverride/logging_configurator_client.py:59-66 | one logger leaves the store and goes back to the configured level |
| `LogLevels.LoggingConfigurator.RollbackOverrides` | frontik/loggers/logleveloverride/logging_configurator_client.py:57-60 | all loggers that left the list |
| `LogLevels.LoggingConfigurator.UpdateLogLevel` | frontik/loggers/logleveloverride/logging_configurator_client.py:36-55 | one refresh, keeping the invariant |
| `LogLevels.RefreshEffect` | frontik/loggers/logleveloverride/logging_configurator_client.py:36-66 | the store is the list at its last levels, listed loggers and all their handlers are at them, dropped ones at the configured level, all others and the root's handlers unchanged |
| `LogLevels.NewHandlersExactly` | frontik/loggers/logleveloverride/logging_configurator_client.py:40-55 | a listed logger without handlers gets one new handler for each of the root's, at its last level, if and only if the list gives it a level other than its stored one |
| `LogLevels.CopiesAtMostOnce` | frontik/loggers/logleveloverride/logging_configurator_client.py:46-53 | over any run of refreshes a logger's handlers change at most from none to one copy of each root handler |
| `Deadline.RequestBuilder.ModifyRequest` | frontik/balancing_client.py:44-70 | headers, timeout and the exception on every path |
| `Deadline.HopKeepsBudget` | frontik/balancing_client.py:47-68 | a hop raises exactly with less than a millisecond left or no timeout; otherwise header and timeout are within what is left, and the header is the exact minimum |
| `Deadline.HopOnHeaders` | frontik/balancing_client.py:47-70 | the same on the inbound headers: a deadline limits, else a positive outer timeout; otherwise both headers carry the own timeout |
| `Deadline.RoundsToNearest` | frontik/balancing_client.py:60-64 | rounding is to the nearest integer, halves to even; truncation is towards zero |
| `Deadline.DeadlineBudget` | frontik/balancing_client.py:47-68 | over any number of hops the header and the timeout are at most the first limit less all time spent, and an exhausted chain does not send |
| `Barrier.RunKeepsInv` | frontik/server.py:157-163 | every interleaving keeps the lock, the value read under it, and the count |
| `Barrier.CountedWasInited` | frontik/server.py:157-163 | a worker counts down only after it has finished initialising |
| `Barrier.StartUpBarrier` | frontik/process.py:81-99 | the counter is N less the decrements done; registration and master_done only after all N workers; neither after a timeout |
| `Barrier.StartUpCanComplete` | frontik/process.py:81-99 | from every reachable state without a dead worker or a timeout the start-up can complete |
| `Barrier.RestartsAfterStartUp` | frontik/process.py:99-137 | a worker id is started again only after master_done |
| `Barrier.LateTimeout` | frontik/process.py:86-97 | with one worker: the timeout is raised after the counter has reached zero |
| `Supervisor.WorkerState.StartChild` | frontik/process.py:143-169 | one child and one pipe under the same pid |
| `Supervisor.WorkerState.StartAll` | frontik/process.py:81-82 | worker ids in order |
| `Supervisor.WorkerState.Step` | frontik/process.py:107-137 | one reap or signal |
| `Supervisor.WorkerState.Supervise` | frontik/process.py:103-139 | events are handled in order until no child is left |
| `Supervisor.HandleEffect` | frontik/process.py:114-137 | a failed child is replaced under its own id, others are not; pids, pipes and distinct ids are kept |
| `Supervisor.IdsAreConserved` | frontik/process.py:103-169 | in every run each original worker id is either running or retired, never both |
| `Supervisor.ShutdownEnds` | frontik/process.py:132-134 | during shutdown, over any events, the children left and those reaped are as many as at its start, so none is left exactly after that many reaps |
| `Supervisor.SigtermEndsTheLoop` | frontik/process.py:132-137 | after a Sigterm no child is started and the loop ends when those left have been reaped |
| `Supervisor.OnlySigtermTerminates` | frontik/process.py:132-134 | nothing else begins a shutdown |

## Left out

- Consul, Kafka, Scylla, Sentry, statsd and OpenTelemetry clients: network plumbing over libraries.
- The internals of `Upstream`, `Server` and the consul parser: not part of the repository; an upstream is its live servers as a multiset and its config, and an update makes both those of its argument.
- Byte order of the size field: `=Q` is native order on one machine; the model uses least significant byte first.
- A failing pipe call other than a blocked one: modelled as taking none of its bytes.
- `write_pipes` changed by the supervisor while a sender iterates over it: the model iterates over a snapshot, the source can raise.
- `Replication.ReplicaAgreement`: for runs in which pipes do not block and updates of one upstream are sent in turn; blocked pipes are covered by `SelfHealing.MarkedUntilUpToDate`, all other runs by `Replication.AgreementExactly`.
- `Replication.StepKeepsInv`: a resend round is one event here; the race inside a round is the subject of `WakeUp`.
- `SelfHealing.MarkedUntilUpToDate`: an update is rebuilt and sent in one event here, and pipes neither appear nor close; overlapping updates, forks and deaths are the subject of `Replication`.
- `Server` objects that several upstream objects may share: an in-place update is modelled for whole upstream objects only.
- `SelfHealing.WorkerHeals`: names only the worker knows are not removed, as in the source.
- `LazyRoutes.LazyRefinesEager`: for requests other than HEAD served by single-method routes without equal sort keys; HEAD loses the /fake prefix in the nested lookup, and mounts have no endpoint and cannot be cached.
- `LazyRoutes.LazyUnservedAnswer`: on tables without HEAD gained from earlier lookups; `Lookups.HistoryIndependence` says what those change.
- `DevRoutes.WarmStartEqualsColdStart`: for worlds in which every upper-case method and path is registered once and no method has a dot, which would make keys ambiguous.
- `DevRoutes.EveryRestartIsCold`: `exclude` keeps the paths of the pages, not the mtimes saved with them, which nothing reads.
- Regular expressions of paths: an arbitrary relation between pattern and path; the /fake prefix is literal text in it.
- Sends that an application starts before its previous send has returned, and applications that swallow their own cancellation: both can write headers twice in the source.
- Bytes on the socket: `wire` in `Exchange` lists calls on the connection. A chunk write, or a header write that found the stream closed, is listed though its bytes may not have gone out; a header write that raised anything else is not listed.
- `Exchange.DebugResponse`: the debug transform itself is a parameter.
- Log-level overrides of the root logger, handlers shared between loggers, and changes made by other code.
- Floating-point error: times are real numbers.
- Signals that arrive inside a supervision iteration, process creation and termination themselves.
- Authorisation of debug requests, the request limiter's counter, option parsing, JSON and XML helpers: short branches that would only add easy members.
