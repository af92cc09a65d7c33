# Verified model of the proxy and of the team workflow

This project models five parts of the repository in Dafny and proves what
they keep, over whole runs where they have runs.

* **Rolling token budget** (`TokenBudget`, `Config`, `ConfigHistory`,
  `Attempts`, `BudgetCap`, `AttemptRuntime`, `BudgetBounds`, `Restart`). Each
  provider has a sixty-second window of usage samples and reservations that
  never expire. The window is a class; attempts, reloads and time are a step
  relation over the state behind the proxy's lock. Proved: the cap over whole
  runs, in every minute and across restarts, exact conservation of
  reservations and counters, a retry delay that is exact in every reachable
  state, and that discarding old samples cannot be observed.
* **Routing table** (`Routing`, `RouteOrder`, `RouteTables`, `RouteRuntime`,
  `ProxyRuntime`, `Balance`, `BalanceExample`). Registration with placeholder
  migration, release, reload, reservation, attempt history and rotation, with
  the six-part choice of a provider and the order in which providers are
  tried. Proved: the table invariant in every run, that a released run stays
  released, what is preferred and which provider takes over, when an
  assignment is kept, and how main and auxiliary routes spread.
* **Forwarding** (`WakeUp`, `Waits`, `Forwarding`). The pass and wait loop of
  one request in a world that may answer differently at every look, with a
  routing table that is any sound one. Proved: the one answer each history
  of passes and waits calls for, the bounds on attempts, providers and
  waiting, when exactly the requested waits stay within the budget,
  termination, and the exact wake-up delay over several providers.
* **Event stream** (`EventStream`, `EventGates`, `EventAcceptance`, `Utf8`,
  `Utf8Encoding`, `Observers`, `GatedEvents`, `TerminalEvents`,
  `StreamStructures`, `Relay`). Two byte automata, one cutting frames and
  delaying CR, one dispatching events and skipping LF, are compared with a
  reading of whole byte strings. Line ends follow section 9.2.5 of the WHATWG
  HTML standard and the unfinished last event section 9.2.6; fields follow the
  code, which trims the event name and ignores a bare `data` line. Proved:
  both read the same events under every fragmentation, which streams are
  accepted, which event ends a response and with which usage, what a client
  receives for every upstream and every cut, and what the attempt comes to.
* **Team and archive** (`Archive`, `ArchiveUpdates`, `ArchiveStore`,
  `TeamPlan`, `TeamOwnership`, `TeamMerge`, `TeamApply`). The upsert of
  conversation checkpoints, the ownership check of a two-worker plan, and the
  merge with its rollback while other programs edit the project. Proved: what
  a save writes, the continuation law and the exact fixpoint of the archive,
  exact disjointness of owners, when a merge succeeds and why it does not,
  order independence of the merge, and the rollback law path by path.

Where the source changes state in place there is a class whose methods are
proved against the functions the theorems are about.

Some expectations fail, and the model says exactly when:

* Loads of main routes can differ by two: registering a threaded route again
  also discards a placeholder that was registered again in the meantime
  (`DiscardUnbalances` is such a run from the empty table). A sequence of
  registrations keeps the loads within one exactly when each discarded
  placeholder was one of a most loaded provider (`MainRoutesSpread`).
* The waits a request asks for can exceed its budget when it is woken early
  (`EarlyWakeUpsAskForMore`), and do so exactly when the wake-ups cut off more
  than is left of it (`AskedWithinBudget`); the time it really sleeps exceeds
  it by at most a millisecond (`SleepIsBounded`).
* The read-back of an archive is a fixpoint unless an object was archived
  without a run (`FixpointIsExact`); checkpoints of tasks never archive one
  (`CheckpointsKeepSound`).

## Model

| member | source | states |
|---|---|---|
| `TokenBudget.TokenWindow.Restore` | src/proxy/token_budget.rs:51-53 | Restoring appends one sample and nothing else. |
| `TokenBudget.TokenWindow.Total` | src/proxy/token_budget.rs:56-75 | The loop over the samples and the reservations yields the four saturating totals of exactly the unexpired samples. |
| `TokenBudget.TokenWindow.ReservedTotal` | src/proxy/token_budget.rs:69-72 | Summing the reservations in any map order gives the same saturated total. |
| `TokenBudget.TokenWindow.Status` | src/proxy/token_budget.rs:55-89 | The status is that of the unexpired samples and all reservations, with the two thresholds and the retry delay. |
| `TokenBudget.TokenWindow.CanAdmit` | src/proxy/token_budget.rs:91-95 | A request is admitted exactly when what occupies the budget is below the hard limit and leaves room for the estimate. |
| `TokenBudget.TokenWindow.RetryDelay` | src/proxy/token_budget.rs:97-104 | The retry delay starts from the current total. |
| `TokenBudget.TokenWindow.Delay` | src/proxy/token_budget.rs:106-134 | The loop over the sorted samples finds the first expiry that makes the request fit. |
| `TokenBudget.TokenWindow.Reserve` | src/proxy/token_budget.rs:136-140 | Reserving discards expired samples and records the reservation. |
| `TokenBudget.TokenWindow.Finish` | src/proxy/token_budget.rs:142-150 | Finishing removes the reservation, discards expired samples and keeps a charge only if it is positive. |
| `TokenBudget.StatusIsExact` | src/proxy/token_budget.rs:55-89 | A status shows the reported, estimated and reserved tokens of the last minute apart and together, each cut off at 64 bits; the soft and the hard limit are reached exactly when the whole sum reaches them, and the delay is zero exactly below the hard limit. |
| `TokenBudget.OccupiedNeverRises` | src/proxy/token_budget.rs:55-95 | While nothing happens, what counts against the budget never rises. |
| `TokenBudget.AdmissionPersists` | src/proxy/token_budget.rs:91-95 | A request that fits keeps fitting while nothing happens. |
| `TokenBudget.PrunedTracksPlain` | src/proxy/token_budget.rs:51-150 | After any sequence of operations the pruned window has the same unexpired samples and reservations as a log that never discards one. |
| `TokenBudget.PruningIsUnobservable` | src/proxy/token_budget.rs:51-150 | Status, admission and retry delay asked at or after the latest operation are those of the complete log. |
| `TokenBudget.FirstFitIsExact` | src/proxy/token_budget.rs:106-134 | Reading sorted samples front to back finds the exact moment from which on the request fits. |
| `TokenBudget.SearchIsExact` | src/proxy/token_budget.rs:97-134 | What the search finds decides admission at every later moment. |
| `TokenBudget.RetryDelayIsExact` | src/proxy/token_budget.rs:91-134 | While sums fit in 64 bits, as they do in every reachable window (BudgetBounds.SumsFit): the delay is 0 just when the request fits; otherwise it is the time to the first moment it fits, up to the 0.001 s floor and, with reservations, the 1 s recheck; and if no moment exists it is the recheck interval. |
| `TokenBudget.RetryDelayWithoutReservations` | src/proxy/token_budget.rs:91-134 | With nothing in flight a request of at most the hard limit fits after the delay and, above the floor, at no earlier moment. |
| `TokenBudget.OversizedNeverFits` | src/proxy/token_budget.rs:91-134 | An estimate above the hard limit fits at no time. |
| `BudgetBounds.HeldIsBounded` | src/proxy/runtime.rs:1036-1163 | In every run, whatever the clock reads, what a window holds together with what the attempts in flight can still be charged stays bounded, given the bounds on reported counts, limits and permits. |
| `Restart.RestartKeepsOccupied` | src/proxy/telemetry.rs:317-349 | A restart neither frees nor takes budget: interrupted reservations count as samples of that moment and expire a minute later. |
| `Restart.RestartStaysBounded` | src/proxy/telemetry.rs:317-349 | What a window holds stays bounded from one run of the proxy to the next, so every restored window meets the bound the runs start from. |
| `BudgetBounds.SumsFit` | src/proxy/token_budget.rs:55-75 | No sum of a reachable window exceeds 64 bits, so the saturating totals are exact. |
| `BudgetBounds.ReachableDelayIsExact` | src/proxy/token_budget.rs:91-134 | In every reachable state the retry delay is exact, with no assumption about sums. |
| `ConfigHistory.CountersFollowHistory` | src/proxy/runtime.rs:161-200 | Over any sequence of loads two providers share their counters exactly when they have the same id and no load in between left that id out; a removed provider that returns starts with new ones. |
| `ConfigHistory.CountersFollowIds` | src/proxy/runtime.rs:161-200 | A loaded provider shares its counters with the earlier provider of the same id and with no other one; counters of new providers were never given out before and are all different. |
| `Attempts.Charge` | src/proxy/runtime.rs:1135-1154 | The charge is the larger of the reported total and the reported parts; without a report the reservation, or nothing after a known rejection. |
| `Attempts.NextKeepsReservations` | src/proxy/runtime.rs:1036-1196 | Every begin, status, settlement, drop and reload leaves each window with exactly the reservations of its live guards. |
| `Attempts.EndingKeepsCounts` | src/proxy/runtime.rs:1162-1179 | Settling keeps all counts exact, globally and per provider incarnation: completed, cancelled and interrupted are the numbers of settlements with that outcome, and neither saturating decrement saturates. |
| `Attempts.NextKeepsStatuses` | src/proxy/runtime.rs:1122-1128 | Every status counter of a provider incarnation is the number of times it answered with that status. |
| `Attempts.BeganKeepsCounts` | src/proxy/runtime.rs:1073-1077 | Beginning an attempt keeps in-flight and attempt counts exact. |
| `Attempts.ReloadedKeepsCounts` | src/proxy/runtime.rs:712-741 | A reload that removes or re-adds providers keeps the counts of every provider incarnation exact. |
| `Attempts.NextKeepsCharges` | src/proxy/runtime.rs:1129-1161 | Each attempt is charged once: reported usage, else its reservation, else nothing after a status other than 2xx. |
| `Attempts.NextKeepsConservation` | src/proxy/runtime.rs:1035-1204 | Every step keeps reservations, counts, fresh counters and charges consistent. |
| `Attempts.ReachableIsConserved` | src/proxy/runtime.rs:1035-1204 | In every reachable state reservations are exactly the live guards, in-flight is their number, attempts are in-flight plus finished, outcomes and statuses are counted exactly, and each attempt is charged at most once. |
| `Attempts.AdmissionIsExact` | src/proxy/runtime.rs:212-235 | A request is admitted exactly when the window of its provider, an empty one if it has none, has room below the hard limit and then for the estimate: the limit of the first configured provider with its id, or the one the request knows if there is none. |
| `Attempts.FirstRequestIsAdmitted` | src/proxy/runtime.rs:229-235 | The first request of a provider is admitted exactly when its estimate is at most the hard limit. |
| `Attempts.BeginChanges` | src/proxy/runtime.rs:1047-1077 | A rejected request changes nothing but the count of budget skips; an admitted one has its estimate reserved, counts against its provider at every later moment, and is in flight. |
| `Attempts.SettleChanges` | src/proxy/runtime.rs:1129-1179 | A settlement ends one attempt, releases its reservation, adds its charge to the history and touches no other window. |
| `Attempts.SettleCharges` | src/proxy/runtime.rs:1138-1161 | The charge of a settlement counts against its provider for a minute, and everything else as before. |
| `Attempts.StatusChanges` | src/proxy/runtime.rs:1122-1128 | A status is noted on its guard and counted once; nothing else changes. |
| `Attempts.ReloadChanges` | src/proxy/runtime.rs:712-741 | A reload loads the settings with their counters and changes nothing that was counted or charged. |
| `BudgetCap.ReserveWithinCap` | src/proxy/runtime.rs:1051-1068 | An admitted reservation leaves the window within the hard limit from then on. |
| `BudgetCap.FinishWithinCap` | src/proxy/runtime.rs:1138-1161 | Replacing a reservation by a charge of at most its size never raises the total. |
| `BudgetCap.OccupiedNeverExceedsCap` | src/proxy/runtime.rs:1036-1163 | In every interleaving of begin, finish, drop, reload and time, usage, estimates and reservations stay at or below the hard limit, in whatever order single clock readings come. |
| `BudgetCap.WindowShowsChargeLog` | src/proxy/runtime.rs:1129-1161 | The unexpired samples of a window are those of everything ever charged. |
| `BudgetCap.NoMinuteExceedsCap` | src/proxy/runtime.rs:1036-1163 | The charges stamped in any sixty-second interval never sum above the hard limit, also when contending attempts get the lock in another order than they read the clock; of the clock only that an attempt settles no earlier than any reading up to its beginning. |
| `AttemptRuntime.Inner.Policy` | src/proxy/runtime.rs:212-219 | The limits in force are those of the live configuration, else those the request knows. |
| `AttemptRuntime.Inner.Admissible` | src/proxy/runtime.rs:229-235 | The search for the limits and the window of the provider, if it has one, decide admission as AdmissionIsExact says. |
| `AttemptRuntime.Inner.Begin` | src/proxy/runtime.rs:1047-1077 | Route check, admission check, reservation and counting happen as one step (BeginChanges); each rejection comes exactly when its check fails. |
| `ProxyRuntime.Runtime.Begin` | src/proxy/runtime.rs:1036-1121 | Beginning an attempt in one critical section: its route still exists, the budget admits it, its tokens are reserved, and the attempt is noted on its route; a rejection changes neither routes nor windows. |
| `ProxyRuntime.Runtime.Reload` | src/proxy/runtime.rs:712-741 | One reload replaces the configuration of accounting and routing together and drops the routes it no longer serves. |
| `AttemptRuntime.Inner.Reload` | src/proxy/runtime.rs:712-741 | A reload replaces the configuration and its counters in one step and touches no window. |
| `AttemptRuntime.AttemptGuard.SetStatus` | src/proxy/runtime.rs:1122-1128 | The guard remembers the upstream status and its provider counts it. |
| `AttemptRuntime.AttemptGuard.Finish` | src/proxy/runtime.rs:1129-1196 | The first call settles the attempt with its charge; every later one does nothing. |
| `AttemptRuntime.AttemptGuard.Drop` | src/proxy/runtime.rs:1198-1204 | A dropped guard that has not finished settles as a client disconnect without usage. |
| `Routing.RouteKeyIsInjective` | src/proxy/runtime.rs:851-857 | Different (route, thread) pairs of valid identifiers have different keys. |
| `Routing.CompatibleIsServed` | src/proxy/runtime.rs:752-768 | A route is compatible exactly when its list is not empty, every provider in it is configured and usable, and all share one deployment. |
| `Routing.ChoiceIsLeast` | src/proxy/runtime.rs:770-833 | A choice is made exactly when a candidate is eligible; it is the first eligible candidate of least six-part rank. |
| `Routing.RankIsPreference` | src/proxy/runtime.rs:786-832 | The six-part rank says what is preferred: no soft pressure, then the provider the route has, then what suits its role (auxiliary routes go where others are, or else to a free provider; other routes to a free one, or else to one that only auxiliaries use), then less load, fewer requests in flight, and first in the list. |
| `Routing.ChoiceIsPreferred` | src/proxy/runtime.rs:770-833 | A choice is made exactly when some candidate is enabled, has a key, is listed, within budget and out of cooldown; no such candidate is preferred to what is chosen, and what is chosen is preferred to every one before it. |
| `RouteTables.RegisterKeepsSound` | src/proxy/runtime.rs:922-1013 | An accepted registration keeps the table sound. |
| `RouteTables.ReleaseKeepsSound` | src/proxy/runtime.rs:884-889 | Releasing a run keeps the table sound. |
| `RouteTables.ReloadKeepsSound` | src/proxy/runtime.rs:725-741 | A reload keeps only routes that the new configuration serves. |
| `RouteTables.ReserveKeepsSound` | src/proxy/runtime.rs:513-526 | Reserving a provider keeps the table sound. |
| `RouteTables.RotateKeepsSound` | src/proxy/runtime.rs:551-625 | Rotating a route away from a failed provider keeps the table sound, also with an outdated configuration. |
| `RouteTables.RunKeepsSound` | src/proxy/runtime.rs:513-1013 | Every sequence of operations keeps the table sound and never forgets a released run. |
| `RouteTables.ReachableIsSound` | src/proxy/runtime.rs:513-1013 | From the empty table on: keys match, providers exist, are usable and share one deployment in the live configuration, routes with one id share run, task and project, role routes are assigned within their own list, and there are at most 2048 routes. |
| `RouteTables.ReleaseIsForever` | src/proxy/runtime.rs:884-889 | A released run never has a route again, whatever happens later. |
| `RouteTables.ReleaseDropsRun` | src/proxy/runtime.rs:878-891 | A run with a valid id loses exactly its routes and is remembered; nothing else changes, and nothing at all for an invalid id. |
| `RouteTables.ReloadAdopts` | src/proxy/runtime.rs:725-741 | A reload adopts the configuration and keeps the shared preference exactly if it is still there, else the first provider. |
| `RouteTables.AttemptIsNoted` | src/proxy/runtime.rs:1078-1084 | An attempt adds one to the count of its provider on its live route, which remembers it; nothing else changes. |
| `RouteTables.RegisterInstalls` | src/proxy/runtime.rs:956-1011 | An accepted registration is found under its key with its wait filled in; with a role it is assigned to the best provider of the live configuration, given the assignment of the earlier route, and prefers it; it continues the history of the route at its key, or else of the placeholder, and without a role its preference too. |
| `RouteTables.ReloadKeepsServed` | src/proxy/runtime.rs:734-738 | A reload keeps exactly the routes that the new configuration serves, unchanged. |
| `RouteTables.ReserveAssigns` | src/proxy/runtime.rs:513-526 | The best of the offered providers becomes assignment and preference; if none is open to the route nothing changes, and no other route ever does. |
| `RouteTables.RotationLeavesFailed` | src/proxy/runtime.rs:561-590 | After a rotation a role route has the best of the other providers, or none exactly if no other is open to it, never the failed one; its history and every other route stay. |
| `RouteTables.RotationMovesPreference` | src/proxy/runtime.rs:592-622 | A route without a role leaves a failed preference exactly when another provider of its order is ready, and then prefers a ready one; any other preference stays. |
| `RouteTables.RotationIsNext` | src/proxy/runtime.rs:562-622 | Without a role only a preference for the failed provider moves, that of the route or the shared one: to the first ready provider after it, going round the order, and not at all if no other is ready; nothing moves for a route that is gone, or for requests without a route unless they rotate. |
| `RouteTables.NoteKeepsSound` | src/proxy/runtime.rs:1078-1084 | Noting an attempt on its route keeps the table sound. |
| `RouteOrder.OrderReorders` | src/proxy/runtime.rs:462-511 | The order of a request is a rearrangement of the configured providers of its live route, or of all of them without a route; without a live route it is empty. |
| `RouteOrder.SortSorts` | src/proxy/runtime.rs:488-493 | A balanced route tries the provider with the fewest requests in flight first, then the one with the fewest attempts of the route. |
| `RouteOrder.SortIsStable` | src/proxy/runtime.rs:488-493 | Equally busy providers stay in the order of the list. |
| `RouteOrder.ConfiguredLists` | src/proxy/runtime.rs:470-485 | The providers of a route are the first configured one with each id of its list, in the order of the list. |
| `RouteOrder.OrderIsExact` | src/proxy/runtime.rs:462-511 | The order exactly: of no route all providers, from the shared preference on if rotation is on; of a route that is gone none; of a balanced route by load; of another one from its preference on, going round. |
| `RouteOrder.NextReadyIsNext` | src/proxy/runtime.rs:592-611 | The provider that takes over is the first ready one after the failed one, going round the order, or after its first one if the failed one is not there. |
| `RouteOrder.FollowingIsRest` | src/proxy/runtime.rs:592-602 | The providers looked at after a failed one are exactly the other ones of the order, each once. |
| `RouteTables.RegisterIsLocal` | src/proxy/runtime.rs:1007-1011 | A registration changes its own key, takes away a placeholder at another key, and changes nothing else of the table. |
| `RouteTables.ChoiceIsSticky` | src/proxy/runtime.rs:815-821 | A choice keeps the assigned provider exactly when that provider is eligible and not under soft pressure that another eligible one escapes. |
| `RouteTables.RegistrationIsSticky` | src/proxy/runtime.rs:993-1006 | Registering a route again or adding its thread keeps its provider exactly under that condition. |
| `RouteTables.RegistersExactly` | src/proxy/runtime.rs:922-991 | On a sound table a registration is accepted exactly when it is well formed and served, its run is not released, every route of its id has its owner, and a route it replaces has its role; otherwise the first failing check names the error. |
| `RouteRuntime.RoutingState.SetRoute` | src/proxy/runtime.rs:922-1013 | Registration in place is the registration step, or an error that changes nothing. |
| `RouteRuntime.RoutingState.ReleaseRoutes` | src/proxy/runtime.rs:878-891 | Release in place drops exactly the routes of the run, counts them and remembers the run. |
| `RouteRuntime.RoutingState.ReloadConfig` | src/proxy/runtime.rs:725-741 | Reload in place is the reload step. |
| `RouteRuntime.RoutingState.ReserveProvider` | src/proxy/runtime.rs:513-526 | Reservation in place assigns and prefers the chosen provider, or changes nothing. |
| `RouteRuntime.RoutingState.RotateRoute` | src/proxy/runtime.rs:551-629 | Rotation in place is the rotation step: a role route is reassigned, another one moves its preference. |
| `RouteRuntime.RoutingState.NoteAttemptOn` | src/proxy/runtime.rs:1078-1084 | In place, an attempt that begins is counted on its route and remembered as its last one. |
| `Balance.NewMainIsLeast` | src/proxy/runtime.rs:786-833 | A new main route gets the first provider with the least load. |
| `Balance.RegistrationKeepsSpread` | src/proxy/runtime.rs:922-1013 | From loads that differ by at most one, a main registration keeps that exactly when it discards no placeholder, or one of a most loaded provider. |
| `Balance.MainRoutesSpread` | src/proxy/runtime.rs:770-1013 | From the empty table, a sequence of main registrations, accepted or not, keeps the loads of a healthy idle pool within one of each other throughout exactly when every placeholder an accepted one discards was one of a most loaded provider. |
| `Balance.FewRoutesAreDistinct` | src/proxy/runtime.rs:770-833 | While there are no more main routes than providers, no two share one. |
| `BalanceExample.DiscardUnbalances` | src/proxy/runtime.rs:922-1013 | Five registrations from the empty table after which one of two healthy idle providers has two main routes and the other none. |
| `Balance.AuxiliaryRoutesShare` | src/proxy/runtime.rs:796-806 | Auxiliary routes alone always share one provider, whatever is in flight and whatever is discarded. |
| `WakeUp.WakeUpIsEarlyEnough` | src/proxy/runtime.rs:1768-1809 | No provider becomes ready before the wake-up, up to the floor, requests in flight or not. |
| `WakeUp.WakeUpIsExact` | src/proxy/runtime.rs:1768-1809 | With nothing in flight, when all providers are blocked and not all oversized, one is out of cooldown and admits the request at the wake-up and, above the floor, none before. |
| `BudgetBounds.ReachableWakeUpIsExact` | src/proxy/runtime.rs:1768-1809 | In every reachable state of the budget the wake-up is exact, with no assumption about sums. |
| `BudgetBounds.ReachableWakeUpIsEarlyEnough` | src/proxy/runtime.rs:1768-1809 | In every reachable state of the budget no provider becomes ready before the wake-up, up to the floor. |
| `Waits.SleepIsBounded` | src/proxy/runtime.rs:1816-1847 | The time slept of what was asked for is at most the wait budget plus 1 ms. |
| `Waits.AskedIsSlept` | src/proxy/runtime.rs:1816-1847 | The time asked for equals the time slept exactly when no wake-up is early. |
| `Waits.AskedIsPaidAndCutOff` | src/proxy/runtime.rs:1816-1847 | The requested waits overdraw what was taken from the budget by exactly what the wake-ups cut off. |
| `Waits.AskedWithinBudget` | src/proxy/runtime.rs:1816-1847 | The requested waits sum to at most the budget plus 1 ms exactly when what the wake-ups cut off fits into what is left of the budget plus 1 ms. |
| `Waits.NextWaitWithinBudget` | src/proxy/runtime.rs:1816-1847 | One more wait keeps that bound exactly when its wake-up cuts off no more than is left then, beyond what earlier ones did; a wait that is slept out cuts off nothing while budget is left. |
| `Waits.EarlyWakeUpsAskForMore` | src/proxy/runtime.rs:1840-1847 | Concrete early wake-ups after which the requested waits exceed the budget. |
| `Waits.WaitsAreFew` | src/proxy/runtime.rs:1816-1847 | If every wake-up advances the clock by a tick, only so many waits fit into the budget. |
| `Waits.SleepIsClamped` | src/proxy/runtime.rs:1817-1841 | A request asks to sleep for the delay, cut off at what is left of the budget and at a second, and for a millisecond at least. |
| `Forwarding.Order` | src/proxy/runtime.rs:1366-1378 | The order of a pass is exactly the configured providers that are in the captured list and still in the live one, each once, those under soft pressure last, and otherwise in the order of the live route. |
| `Forwarding.Turn` | src/proxy/runtime.rs:1384-1400 | With a role, no untried provider of the pass that is open to the route is preferred to the one whose turn it is, and there is none exactly when nothing is left to reserve; without a role it is the next in order. |
| `Forwarding.StartedExactly` | src/proxy/runtime.rs:1401-1551 | Attempts begin exactly on the tried providers that are usable, within budget and out of cooldown, below the limit of 64, that can be sent to and whose reservation succeeds. |
| `Forwarding.Pass` | src/proxy/runtime.rs:1382-1551 | One pass tries each provider at most once, counts attempts and begins them exactly where the log says so; it ends at the first try that found the route released or whose answer goes to the client, at the limit, or with every provider tried or nothing left to reserve. |
| `Forwarding.NextPass` | src/proxy/runtime.rs:1366-1551 | One more pass: its order, what it tried and began and where it ended. |
| `Forwarding.Verdict` | src/proxy/runtime.rs:1768-1815 | A request waits exactly when every usable provider is blocked and one of them could take it, and then for the least time such a provider stays blocked; it finds nothing available exactly when no provider is usable or a usable one is not blocked. |
| `Forwarding.AnswerIsDetermined` | src/proxy/runtime.rs:1402-1847 | A look at the last pass of a request allows one answer only: the client is answered if its last try was, the route is unavailable if the last try found it released, and otherwise the blocked and oversized providers, the attempts and the wait budget decide. |
| `Forwarding.PassOrWait` | src/proxy/runtime.rs:1366-1847 | One pass is followed by the answer it calls for, or by a wait for the least time a provider that could take the request stays blocked, and that only while budget and attempts are left. |
| `Forwarding.EveryWaitFits` | src/proxy/runtime.rs:1382-1847 | Every wait of a request followed a pass after which it could do nothing else, for the least time of that pass. |
| `Forwarding.AnswerIsDisciplined` | src/proxy/runtime.rs:1341-1551 | A request begins at most 64 attempts in all of its passes, each pass at most one on a provider and only on captured ones. |
| `Forwarding.Forward` | src/proxy/runtime.rs:1341-1895 | One request is passes with waits between them, each counting on from the one before; its answer is the one its last pass calls for, so it gives up on blocked providers only when its budget or its attempts are used up, and then names the least wait in whole seconds; it starts at most 64 attempts, and ends if every wake-up advances the clock. |
| `EventStream.EventIsFrame` | src/proxy/runtime.rs:1986-1990 | The first event of a stream, read on its own, is exactly one event. |
| `EventStream.EventTakesWholeBreak` | src/proxy/runtime.rs:1954-1963 | An event that ends in CR is not followed by the LF of the same line end. |
| `EventStream.EventsArePrefix` | src/proxy/runtime.rs:1948-1990 | The events of a stream are a prefix of it, followed by no complete event. |
| `EventGates.FeedIsRead` | src/proxy/runtime.rs:1948-1985 | A chunk is accepted exactly when its frames stay within 1 MiB and 4096 frames are not exceeded before its last byte, with the frames of the byte automaton. |
| `EventGates.FeedSplit` | src/proxy/runtime.rs:1948-1985 | An accepted chunk may be split anywhere with the same frames and final state. |
| `EventGates.FragmentationIsInvisible` | src/proxy/runtime.rs:1948-1985 | If the whole is accepted, any fragmentation is, with the same frames and final state. |
| `EventGates.ReadIsLossless` | src/proxy/runtime.rs:1948-1985 | Frames followed by the pending bytes are the input. |
| `EventGates.ReadIsBounded` | src/proxy/runtime.rs:1964-1966 | Every frame and the pending bytes stay within 1 MiB. |
| `EventGates.GateCutsAtEvents` | src/proxy/runtime.rs:1948-1998 | The gate cuts exactly at the events of the stream, for every mixture of line ends. |
| `EventGates.WholeStream` | src/proxy/runtime.rs:1948-1998 | For any accepted chunks, frames plus the final flush are the events of the whole stream, each within 1 MiB. |
| `EventAcceptance.AcceptedExactly` | src/proxy/runtime.rs:1948-1985 | A stream is accepted, however it is cut into chunks, exactly when no event and not the unfinished rest exceeds 1 MiB and no chunk goes on after completing 4096 events. |
| `Utf8.LossyIsUtf8` | src/proxy/sse.rs:232-236 | Lossy decoding always yields valid text. |
| `Utf8.Utf8IsKept` | src/proxy/sse.rs:232-236 | Lossy decoding keeps valid text. |
| `Utf8.AsciiIsKept` | src/proxy/sse.rs:232-236 | Lossy decoding yields ASCII text exactly for ASCII text, and then that text. |
| `Utf8Encoding.StartIsExact` | src/proxy/sse.rs:232-236 | Lossy decoding keeps exactly the encodings of characters, and replaces the longest part that begins one, or a single byte if none does. |
| `Observers.ErrorNamesAreExact` | src/proxy/sse.rs:178-236 | Cutting an event name to 100 bytes and decoding it lossily makes no error name of another one. |
| `Observers.SplitsAreInvisible` | src/proxy/sse.rs:262-296 | Any split of the bytes yields the same final state, failures and dispatches. |
| `Observers.BuffersStayBounded` | src/proxy/sse.rs:262-296 | Both buffers stay within the limit whatever is fed. |
| `Observers.FirstTerminalStands` | src/proxy/sse.rs:178-221 | The first terminal event and its usage are never overwritten. |
| `Observers.TerminalIsFinal` | src/proxy/sse.rs:262-265 | After a terminal event nothing is read any more. |
| `Observers.DispatchLeavesFreshObserver` | src/proxy/sse.rs:217-221 | After the empty line that ends a non-terminal event, oversized or not, the observer is as new. |
| `Observers.SkippedLfIsHarmless` | src/proxy/sse.rs:268-273 | Whether a LF is still to be skipped makes no difference to a stream that does not begin with one. |
| `StreamStructures.EventGate.Newline` | src/proxy/runtime.rs:1986-1990 | An empty line hands out the pending frame and clears it. |
| `StreamStructures.EventGate.Feed` | src/proxy/runtime.rs:1948-1985 | The byte loop computes the gate function or rejects the chunk. |
| `StreamStructures.EventGate.Finish` | src/proxy/runtime.rs:1991-1998 | At the end a delayed CR is resolved. |
| `StreamStructures.ResponseStreamObserver.constructor` | src/proxy/sse.rs:163-176 | A new observer has empty buffers and a limit of at least one byte. |
| `StreamStructures.ResponseStreamObserver.Dispatch` | src/proxy/sse.rs:178-221 | Dispatch in place reads name, usage and failure of the event and clears the buffers. |
| `StreamStructures.ResponseStreamObserver.Line` | src/proxy/sse.rs:223-258 | A line end in place notes a field, dispatches or ends a dropped line. |
| `StreamStructures.ResponseStreamObserver.Feed` | src/proxy/sse.rs:262-296 | The byte loop computes the observer function and reports the last failure. |
| `GatedEvents.FrameIsOneDispatch` | src/proxy/sse.rs:178-296 | A frame causes exactly one dispatch, on its closing empty line, of exactly its fields, and nothing is dropped. |
| `GatedEvents.ObserverReportsEvents` | src/proxy/sse.rs:178-296 | Fed with raw bytes, the observer reports exactly the events of the stream up to the first terminal one, as long as they fit. |
| `GatedEvents.EventsAreChained` | src/proxy/runtime.rs:1948-1998 | Consecutive frames never split a CRLF. |
| `GatedEvents.ObserverBehindGate` | src/proxy/runtime.rs:2085-2100 | Behind the gate every frame is one dispatch, and between frames the buffers are empty. |
| `GatedEvents.GateAndObserverAgree` | src/proxy/runtime.rs:1947-1998 | On every stream the gate accepts, the events dispatched from its frames are those dispatched from the raw chunks and those of the stream. |
| `TerminalEvents.RecordReadsLines` | src/proxy/sse.rs:223-258 | What is dispatched of an event is what its lines say: the last event value, trimmed, cut to 100 bytes and decoded, and every data value without one leading space, each followed by a line feed. |
| `TerminalEvents.EndingNames` | src/proxy/sse.rs:179-215 | An event ends the response exactly when its kind, or its own name if that is an error or there is no kind, is one of four names, or its trimmed data is the done mark. |
| `TerminalEvents.FirstEndingDecides` | src/proxy/sse.rs:178-296 | On every stream of fitting events the observer knows the first event that ends the response, its name and its usage, and reports the last failure up to it; without such an event it knows nothing. |
| `TerminalEvents.FirstEndingDecidesBehindGate` | src/proxy/runtime.rs:1947-1998 | The same holds from the frames of the gate as from the chunks themselves. |
| `Relay.SplittingReadsFields` | src/proxy/runtime.rs:2005-2017 | Splitting a frame at single CR and LF bytes reads the same fields as splitting at line ends. |
| `Relay.ErrorEventsAreExplicit` | src/proxy/runtime.rs:2018-2035 | A frame the observer takes for an error is one the relay refuses to forward. |
| `Relay.ExplicitErrorIsExact` | src/proxy/runtime.rs:2005-2035 | A frame is an explicit error exactly when its event name, or the kind in its data, is one of the two error names, or its data carries an error. |
| `Relay.Inspect` | src/proxy/runtime.rs:2085-2104 | A frame is forwarded only if it is not classified as a failure and is no explicit error; as the last one exactly when it ends the response; a classified failure goes before an explicit error. |
| `Relay.ForwardFrames` | src/proxy/runtime.rs:2084-2106 | Forwarding stops at a refused frame, after a terminal one, or when the client is gone. |
| `Relay.PassChunk` | src/proxy/runtime.rs:2083-2106 | What one chunk or the end of the stream lets through is the next part of the events of the stream. |
| `Relay.SettleResponse` | src/proxy/runtime.rs:2085-2106 | Each end of the relay but a gone client finishes the guard, and it is dropped in any case: together one settlement, completed exactly after a terminal frame, failed exactly after an explicit error, disconnected exactly when the client left, with the usage observed unless it left. |
| `Relay.ReasonFits` | src/proxy/runtime.rs:2052-2106 | The outcome, from what was received and sent alone: completed exactly when the last frame sent ended the response, disconnected exactly when the client no longer came back, failed exactly when the next event is an explicit error that is not classified, interrupted otherwise. |
| `Relay.StreamResponse` | src/proxy/runtime.rs:2052-2106 | The client receives a prefix of the events, untouched, no failure or explicit error among them and nothing after a terminal one, and of at most the allowed number of bytes; the error event follows exactly after a failed response, and after an interrupted one unless clients reconnect. The guard settles the attempt exactly once, with the outcome that what was received and sent calls for (ReasonFits) and the usage of the last event inspected, or none if the client left. |
| `Archive.FoundIsBelow` | dashboard/store.py:373-381 | A row is found by its key exactly when its occurrence is below the number of rows with its base. |
| `Archive.SaveKeepsRows` | dashboard/store.py:347-381 | Whatever is saved, no row is removed or moved, and the occurrences of each base stay 0, 1, 2, ... in row order. |
| `Archive.ContinuationReadsBack` | dashboard/store.py:347-381 | Saving the archived messages followed by new ones changes no row and appends the new messages, duplicates included, runs filled in. |
| `Archive.RoundTrip` | dashboard/store.py:319-324 | Any list saved into an empty archive reads back as that list with runs filled in. |
| `Archive.FixpointIsExact` | dashboard/store.py:347-381 | Saving the read-back list changes nothing exactly when no run is given or every archived object has its own. |
| `ArchiveUpdates.ObjectKey` | dashboard/store.py:358-370 | An object is keyed by its own run or the given one, and by its identifier, or else by its content with the run filled in. |
| `ArchiveUpdates.TextKey` | dashboard/store.py:359-371 | A plain message is keyed by its content under the run of the archived equal one that has as many equal ones before it, or under the given run if there are not so many. |
| `ArchiveUpdates.OccurrenceCounts` | dashboard/store.py:374-375 | The occurrence of a message is the number of earlier ones in its list with the same run and identity. |
| `ArchiveUpdates.SaveWrites` | dashboard/store.py:347-381 | After a save every message is in the row with its key, archived rows that no message names are as they were, and what is added is, in order, the messages that named no archived row. |
| `ArchiveUpdates.WrittenIsUnique` | dashboard/store.py:347-381 | Only one table meets this description. |
| `ArchiveUpdates.SaveReplaces` | dashboard/store.py:379-380 | A message saved again under its run and identifier replaces what its row held, and nothing else. |
| `ArchiveStore.CheckpointsKeepSound` | dashboard/store.py:307-324 | Every sequence of checkpoints keeps each task keyed, consistent and with a run on every object. |
| `ArchiveStore.NothingIsLost` | dashboard/store.py:319-324 | No sequence of checkpoints, however abbreviated, removes or moves a row. |
| `ArchiveStore.CheckpointContinues` | dashboard/store.py:307-324 | A later checkpoint under any run appends exactly its new messages and leaves every other row and task alone. |
| `ArchiveStore.CheckpointWrites` | dashboard/store.py:307-324 | A checkpoint writes its messages, as SaveWrites says, under its own run or the legacy run of its task, and leaves all other tasks alone. |
| `ArchiveStore.CheckpointReplaces` | dashboard/store.py:319-324 | After any checkpoints, a message that a later one saves again under its run and identifier reads as it was saved last, at its old place. |
| `ArchiveStore.ChatStore.LegacyRuns` | dashboard/store.py:350-354 | The runs of archived plain messages are collected by text, in row order. |
| `ArchiveStore.ChatStore.SaveItems` | dashboard/store.py:347-381 | The loop with its three dictionaries upserts exactly the rows of the specification. |
| `ArchiveStore.ChatStore.Checkpoint` | dashboard/store.py:307-324 | A checkpoint picks the run, writes every message to the row with its key, keeps every other row and task, and shows the whole conversation. |
| `TeamPlan.OwnersAreDisjoint` | dashboard/experiment.py:107-117 | Assignments clash exactly when some path, of whatever depth and case, belongs to both workers. |
| `TeamPlan.FoldIsCharacterwise` | dashboard/experiment.py:109-117 | Paths are folded character by character. |
| `TeamOwnership.OwnsWhatIsBelow` | dashboard/experiment.py:115-117 | A worker owns a file exactly when one of its paths, component by component and up to case, is the file or a directory above it. |
| `TeamOwnership.ClashIsBelow` | dashboard/experiment.py:107-111 | Two assignments clash exactly when one of them, component by component and up to case, is the other or a directory above it. |
| `TeamPlan.AcceptedPaths` | dashboard/experiment.py:96-105 | A path is accepted exactly when it is relative, has plain characters and components, never climbs and names nothing blocked; its normal form has the same components. |
| `TeamPlan.NormaliseTwice` | dashboard/experiment.py:94-106 | A normalised path is its own normal form. |
| `TeamPlan.SplitOfJoin` | dashboard/experiment.py:100-105 | Joining and splitting the components of a path are inverse. |
| `TeamPlan.NormalisePaths` | dashboard/experiment.py:90-106 | All assigned paths are normalised, or the plan is refused. |
| `TeamPlan.FindClash` | dashboard/experiment.py:107-111 | The pair loop, which folds its first path again and again, finds a clash exactly when there is one. |
| `TeamPlan.ValidatePlan` | dashboard/experiment.py:82-112 | A plan is accepted exactly when it is well formed and no path belongs to both workers; only its paths are rewritten. |
| `TeamPlan.ValidatedKeepsPlan` | dashboard/experiment.py:91-106 | A validated plan says what the plan said, each path in normal form with the same components. |
| `TeamApply.Workspace.StageCopy` | dashboard/experiment.py:141-156 | Staging one copy, in any order and with each path checked at its own moment, succeeds exactly when each of its changes is allowed there and then and none collides up to case, and stages exactly those changes; otherwise the error names a change that is not owned, collides, or meets a changed project. |
| `TeamApply.Workspace.Stage` | dashboard/experiment.py:137-156 | Staging both copies succeeds exactly when the edits are mergeable into the project as validation saw it, path by path, and changes nothing in it; otherwise the error names the reason. |
| `TeamMerge.MergeableIsSymmetric` | dashboard/experiment.py:141-156 | Whether edits can be merged does not depend on the order of the workers. |
| `TeamMerge.MergeableExactly` | dashboard/experiment.py:141-156 | Edits can be merged exactly when each worker touched only files it owns, all of them as in the baseline still, and no two touched files are the same up to case. |
| `TeamMerge.DisjointOwnersDoNotCollide` | dashboard/experiment.py:147-152 | Two workers of a validated plan can never pass the ownership check on the same file. |
| `TeamMerge.ValidatedTeamsMerge` | dashboard/experiment.py:137-156 | For a validated plan a merge fails only for one worker's own edits. |
| `TeamApply.RollbackLaw` | dashboard/experiment.py:181-190 | A path already written returns to the baseline unless its content differs from what was written, and then the later content stays; every other path is as if the merge had not run. |
| `TeamApply.QuietValidation` | dashboard/experiment.py:137-156 | With nobody else at work, validation sees the project as it is. |
| `TeamApply.QuietRollback` | dashboard/experiment.py:157-190 | With nobody else at work an interrupted merge leaves the project as it was. |
| `TeamApply.QuietMerge` | dashboard/experiment.py:157-191 | With nobody else at work every changed path holds its worker's content or is gone, and every other path is as it was. |
| `TeamApply.OrderDoesNotMatter` | dashboard/experiment.py:137-191 | The merged project depends neither on the order of the workers nor on that of their paths. |
| `TeamApply.QuietNeverStops` | dashboard/experiment.py:160-163 | With nobody else at work and nothing failing, no edit that may be merged stops the merge. |
| `TeamApply.QuietOutcome` | dashboard/experiment.py:157-191 | A merge of mergeable edits with nobody else at work either leaves the merged project, or something failed and the project is as it was. |
| `TeamApply.Workspace.Apply` | dashboard/experiment.py:160-180 | Each edit is applied only where the project still holds the baseline; applying stops exactly at the first path that somebody has changed by then, or where reading or writing fails. |
| `TeamApply.Workspace.Rollback` | dashboard/experiment.py:181-190 | Edits are undone last one first, while other programs may edit. |
| `TeamApply.Workspace.ApplyOrUndo` | dashboard/experiment.py:157-190 | All edits are applied, or those before the first that was stopped, for the reason above, and then rolled back. |
| `TeamApply.Workspace.MergeCopies` | dashboard/experiment.py:137-191 | A merge fails in validation exactly when the edits are not mergeable into the project as seen, path by path, names the reason and has written nothing; a merge that was begun is completed, or stopped for a changed path or a failure and rolled back. With nobody else at work, mergeable edits and nothing failing it gives the merged project. |

## Left out

- RetryDelayIsExact: assumes that sums fit in 64 bits; ReachableDelayIsExact does not.
- ReachableIsConserved: attempt ids are random identifiers that are taken never to repeat, and plain counters are unbounded integers.
- RestartKeepsOccupied: archived samples are taken to be those of the window, so that every write to the archive succeeded.
- WakeUpIsExact: assumes that nothing is in flight, because with reservations the code only rechecks every second; WakeUpIsEarlyEnough holds in general.
- Forward: what other requests, route edits and upstreams do is a parameter that may change at every look; header building, URLs, response bodies and the choice among error statuses are not modelled.
- Verdict: for how long a provider stays blocked is read from the world; WakeUp derives it from windows and cooldowns.
- RotateRoute: reading the order and moving the preference are one step; the code takes the lock twice.
- StreamResponse: elapsed time is the moment at which the upstream item is a deadline; other requests do not change the accounts meanwhile; cooldowns and counters of forwarded bytes are left out.
- ErrorEventsAreExplicit: JSON decoding and error classification are parameters; decoding ignores spaces at the start of a data line, and the relay's Unicode trimming keeps an error name.
- SaveItems: only the message table; the place of the run key within an object is abstracted, contents have distinct digests, and JSON values are read back as written.
- ValidatePlan: values of the wrong JSON type, and which names are excluded or private, are outside; folding is any character-wise folding that is idempotent and folds separators to themselves, as Unicode full case folding is.
- MergeCopies: both copies are read at one moment, and reading does not fail before the first write. Directories, links, temporary files and the backup copy are left out, writing a file is one step, and rolling back does not fail.
- Which files take part in a copy, and their size limits: manifests are given.
- Telemetry storage, request estimates, authentication, header handling, semaphores and tracing: they would only add plumbing.
- Task life cycles in the dashboard, the other archive tables, migrations and pagination: larger, but with easier members only.
