# Contract-Net drone allocation engine

This project models the core of a multi-agent crop-spraying simulator. Drones (agents) are
scouts or workers. A simulation run owns a batch of spray tasks. One *step* of a simulation
runs one round of the Contract-Net protocol:

1. The first pending task is announced and moved to `bidding`.
2. Every eligible worker bids. To be eligible, a worker needs energy above 20 and pesticide
   left. Its bid is the floor of its distance to the task plus its used energy.
3. If nobody bid, the task goes back to `pending`.
4. Otherwise the lowest bid wins and the task is `assigned` to that agent.
5. The winner flies to the task. It pays half its distance in energy and ten times the
   infestation density in pesticide, both clamped at zero. The task is `completed`, and the
   costs are added to the simulation's counters.

Creating a simulation writes the run row and `taskCount` random spray tasks. Creating an
agent fills in payload defaults.

The model has these modules:

- `Schema` — records, enumerations and column defaults (`drizzle/schema.ts`).
- `Tables` — a generic id-keyed table scan.
- `Store` — the record store (`server/db.ts`). `Db` is the store's value. The functions
  `CreateAgentF`, `UpdateTaskStatusF`, `PendingTasks`, … say what each operation does to that
  value. Class `RecordStore` holds the four tables and four auto-increment counters as fields.
  Each of its methods updates the fields in place and is proved equal to its function.
- `StoreScans` — how inserts and deletes show up in later scans.
- `Bidding` — the pure arithmetic of a round:
  - the integer square root that replaces `Math.sqrt`;
  - eligibility, the bid value and the order of bids;
  - the `reduce` that picks the best bid;
  - `Array.find`, energy and pesticide cost;
  - the settled winner and the credited simulation.
- `Engine` — the router mutations as methods on a `RecordStore`:
  - `Step`, with the bidding loop `CollectBids` and the settlement `Settle`;
  - `CreateSimulation`, with its generation loop;
  - `CreateAgent` and `DeleteAgent`.

  Each method is proved to leave the store as its specification function says: `StepSpec`,
  `CreateSimulationSpec`, `CreateAgentF` or `DeleteAgentF`. Each specification function runs
  the router's sequence of store writes on a `Db`.
- `EngineProps`, `CreationProps` — what a step, a simulation creation and an agent creation do.
  This includes the store invariant `Consistent`, which every operation preserves. Besides the
  row-level facts (`RowsConsistent`), it tallies each run against its tasks (`Tallied`). A run
  has as many tasks as the creation loop ran for its `totalTasks`, and its `completedTasks`
  counts those of them that are completed.
- `Runs` — any sequence of router calls starting from an empty store. The lemmas here show:
  - every reachable store is consistent;
  - a run created with a non-negative count never reports more completed tasks than it has;
  - between calls no task is left `bidding` or `assigned`;
  - the step's outcome is determined by the store it reads.

Modelling choices:

- **Ids:** each table hands out ids from its own counter, starting at 1.
- **Row order:** a query returns rows in ascending id order, which is the order a table scan
  gives. The bidding loop, the `reduce` and `find` run in that order.
- **Clock and randomness:** the clock is a `now` parameter. The four `Math.random` draws of each
  generated task are passed in as a `TaskDraw` per loop iteration.
- **Square root:** the distance is the floor square root of the squared distance, `Isqrt`.
  Since `floor(sqrt(n) + k) = isqrt(n) + k` for an integer `k`, and
  `floor(sqrt(n) * 0.5) = isqrt(n) / 2`, every value the router stores is the same.
- **Queries:** each store query is a scan over the table's keys below its counter (`Tables.Scan`).
  A lookup by id is the same scan filtered on the id, of which the first row is returned.
- **Task count:** `simulations.create` takes an optional count. When it is omitted, the input
  schema's default of 10 applies (`TaskCount`).
- **Naming:** the run status `completed` is called `RunCompleted`, so that it does not clash with
  the task status `Completed`.

The model keeps the following behaviour of the code as written:

- `simulations.create` does not validate `taskCount`. A count `n <= 0` records `totalTasks = n`
  and creates no tasks (`Iterations`). For `n < 0`, this admits a run with
  `completedTasks > totalTasks` (`Runs.NegativeCountBreaksBound`). For `n >= 0`,
  `0 <= completedTasks <= totalTasks` holds in every reachable store
  (`Runs.ReachableCompletedWithinTotal`).
- `agents.create` does not keep `currentPayload <= payloadCapacity` (`LoadMayExceedCapacity`).
- The schema's `0-100` comments on `energyLevel` and `infestationDensity` are not enforced by the
  columns. Every reachable store keeps energy within 0 to 100 and density within 0 to 99
  (`AgentInRange` and `TaskInRange` in `Consistent`).
- A completed task does not always raise `totalEnergyUsed`. The energy cost
  `floor(distance * 0.5)` is 0 exactly when the squared distance is at most 3
  (`NoEnergyWhenNear`). The stats test in `server/mas.test.ts:226-257` expects a positive total
  after a completed step. With its single worker at the origin and its one task drawn at (1, 1),
  the step completes and the total stays 0 (`Runs.CompletedStepMayUseNoEnergy`).

## Model

| member | source | states |
|---|---|---|
| Schema.AgentRow | drizzle/schema.ts:29-38 | an agents insert keeps the supplied columns and fills every missing one with its column default |
| Schema.TaskRow | drizzle/schema.ts:43-54 | a tasks insert keeps the supplied columns; priority 1, status pending and density 0 when missing |
| Schema.SimulationRow | drizzle/schema.ts:57-66 | a simulationRuns insert keeps the supplied columns; running, all counters 0 when missing |
| Schema.BidRow | drizzle/schema.ts:69-73 | a bid row carries exactly the task, agent and integer bid value inserted |
| Schema.AgentDefaults | drizzle/schema.ts:33-38 | a new agent is idle at (0,0) with energy 100, capacity 0 and payload 0 |
| Schema.TaskDefaults | drizzle/schema.ts:47-54 | a new task is pending, priority 1, density 0, unassigned and not completed |
| Schema.SimulationDefaults | drizzle/schema.ts:60-66 | a new simulation is running, with every counter 0 and no end time |
| Store.Empty | server/db.ts:97-199 | the initial store is well formed and has no rows |
| Store.AllAgents | server/db.ts:104-108 | getAllAgents returns every stored agent, only stored agents, in ascending id order |
| Store.AgentById | server/db.ts:110-115 | getAgentById returns the row with that id, and absent exactly when no such row exists |
| Store.TasksBySimulation | server/db.ts:141-145 | exactly the tasks with that simulationId, in id order |
| Store.PendingTasks | server/db.ts:147-151 | exactly the tasks with that simulationId and status pending, in id order |
| Store.SimulationById | server/db.ts:175-180 | the run with that id, and absent exactly when no such row exists |
| Store.BidsByTask | server/db.ts:195-199 | exactly the bids with that taskId, in id order |
| Store.CreateAgentF | server/db.ts:97-102 | one new agent row under a fresh id; no other table or row changes |
| Store.PatchAgent | server/db.ts:120-124 | status always set; position, energy and payload overwritten only when supplied; other columns kept |
| Store.UpdateAgentStatusF | server/db.ts:117-126 | only the agent with that id is patched; unknown id changes nothing; other agents and tables untouched |
| Store.DeleteAgentF | server/db.ts:128-132 | removes exactly that agent's key; every other row is unchanged |
| Store.CreateTaskF | server/db.ts:134-139 | one new task row under a fresh id; nothing else changes |
| Store.PatchTask | server/db.ts:156-158 | status set; assignedAgentId changed only when supplied; completedAt set exactly when the status is completed |
| Store.UpdateTaskStatusF | server/db.ts:153-160 | only that task is patched; unknown id changes nothing; other tasks and tables untouched |
| Store.CreateSimulationF | server/db.ts:162-167 | one new run row under a fresh id; nothing else changes |
| Store.PatchSimulation | server/db.ts:182-186 | every supplied column among name, status, the counters and endTime overwritten, every other column kept (id and startTime are not patchable in the model) |
| Store.UpdateSimulationStatsF | server/db.ts:182-186 | only that run is changed; other runs and tables untouched |
| Store.CreateBidF | server/db.ts:188-193 | one new bid row under a fresh id; nothing else changes |
| Store.RecordStore.constructor | server/db.ts:97-199 | a new store is valid and empty |
| Store.RecordStore.CreateAgent | server/db.ts:97-102 | the store after the insert and the id returned are those of CreateAgentF; validity kept |
| Store.RecordStore.GetAllAgents | server/db.ts:104-108 | the scan of the agents table returns AllAgents: every agent, in id order |
| Store.RecordStore.GetAgentById | server/db.ts:110-115 | the first row of the scan filtered on the id is AgentById: the row under that key, absent for an unknown id |
| Store.RecordStore.UpdateAgentStatus | server/db.ts:117-126 | the field-by-field update equals UpdateAgentStatusF; validity kept |
| Store.RecordStore.DeleteAgent | server/db.ts:128-132 | the store after the delete is DeleteAgentF's |
| Store.RecordStore.CreateTask | server/db.ts:134-139 | store and id as CreateTaskF |
| Store.RecordStore.GetTasksBySimulation | server/db.ts:141-145 | the scan filtered on the simulation returns TasksBySimulation: exactly its tasks, in id order |
| Store.RecordStore.GetPendingTasks | server/db.ts:147-151 | the scan filtered on simulation and pending status returns PendingTasks |
| Store.RecordStore.UpdateTaskStatus | server/db.ts:153-160 | the field-by-field update equals UpdateTaskStatusF; validity kept |
| Store.RecordStore.CreateSimulation | server/db.ts:162-167 | store and id as CreateSimulationF |
| Store.RecordStore.GetSimulationById | server/db.ts:175-180 | the first row of the scan filtered on the id is SimulationById: absent for an unknown id |
| Store.RecordStore.UpdateSimulationStats | server/db.ts:182-186 | the store after the update is UpdateSimulationStatsF's |
| Store.RecordStore.CreateBid | server/db.ts:188-193 | store and id as CreateBidF |
| Store.RecordStore.GetBidsByTask | server/db.ts:195-199 | the scan filtered on the task returns BidsByTask: exactly its bids, in id order |
| Tables.Scan | server/db.ts:141-145 | the loop over every key below the counter returns the selected rows in key order, as SelectKeys and Rows define them |
| Tables.CountSelected | server/db.ts:141-145 | the number of keys a condition selects is the length of the scan with that condition |
| Tables.SelectSingleKey | server/db.ts:110-115 | a filter that only the row under one key can meet selects that key alone, and nothing when it is not stored |
| StoreScans.CreateAgentAppends | server/db.ts:97-108 | a created agent is the last row of the next getAllAgents, after all earlier ones |
| StoreScans.CreateTaskAppends | server/db.ts:134-145 | a created task is appended to its own simulation's task list and absent from every other |
| StoreScans.CreateBidAppends | server/db.ts:188-199 | a created bid is appended to its task's bid list and absent from every other |
| StoreScans.DeleteAgentHides | server/db.ts:128-132 | after deleteAgent(id), getAllAgents returns no agent with that id |
| StoreScans.DeleteAgentKeepsOthers | server/db.ts:128-132 | after deleteAgent(id), getAllAgents still returns every other agent |
| Bidding.Isqrt | server/routers.ts:131-134 | r is the floor square root: r*r <= n < (r+1)*(r+1) |
| Bidding.IsqrtUnique | server/routers.ts:131-134 | exactly one natural number meets the floor-root condition |
| Bidding.IsqrtMonotone | server/routers.ts:131-134 | a larger squared distance never gives a smaller floor distance |
| Bidding.IsqrtOfSquare | server/routers.ts:131-134 | the floor root of k*k is k |
| Bidding.Distance | server/routers.ts:131-134 | the floor of the Euclidean distance between the agent and the task's area |
| Bidding.BidValue | server/routers.ts:135 | the bid minus the used energy (100 - energyLevel) is the floor of the distance |
| Bidding.Eligible | server/routers.ts:129 | a worker with energy above 20 and payload left; `Bidders`, `SolicitFromEligible` and `ScoutsNeverBid` prove that exactly these agents bid |
| Bidding.Bidders | server/routers.ts:128-129 | an agent is a bidder exactly when it is in the roster and is a worker with energy > 20 and payload > 0 |
| Bidding.BiddersAscending | server/routers.ts:128-129 | bidders keep the roster's id order, so each agent bids at most once |
| Bidding.Solicit | server/routers.ts:128-143 | the i-th bid has the i-th next bid id and the announced task, and is the i-th bidder's id and bid value |
| Bidding.SolicitFromEligible | server/routers.ts:128-143 | every bid comes from an eligible agent with its own bid value, and every eligible agent bids |
| Bidding.SolicitEmpty | server/routers.ts:128-150 | there are no bids exactly when no agent of the roster is eligible |
| Bidding.ScoutsNeverBid | server/routers.ts:129 | no bid carries a scout's id |
| Bidding.BestBidIndex | server/routers.ts:152 | the reduce picks a lowest bid, and the earliest of equal lowest bids |
| Bidding.BestBidIndexUnique | server/routers.ts:152 | those two properties determine the chosen index |
| Bidding.FindAgent | server/routers.ts:158 | `find` gives the first roster agent with that id, and absent exactly when none has it |
| Bidding.Max | server/routers.ts:173-174 | the larger of the two arguments |
| Bidding.EnergyCost | server/routers.ts:160-165 | floor(distance * 0.5): c with (2c)^2 <= d^2 < (2c+2)^2 |
| Bidding.NoEnergyWhenNear | server/routers.ts:160-165 | the energy cost is 0 exactly when the squared distance is at most 3 |
| Bidding.NearerBidsLower | server/routers.ts:131-135 | with equal energy, a strictly smaller floor distance bids strictly lower, and a smaller squared distance never bids higher |
| Bidding.PesticideUsed | server/routers.ts:166 | ten times the task's infestation density; `SettleDbEffect` shows it is what the winner's payload and the simulation's pesticide total change by |
| Bidding.Settled | server/routers.ts:168-175 | the winner working at the task's area with energy and payload spent and clamped at 0; `SettledBounds` shows energy and payload drop to exactly 0 when the cost exceeds them and are never raised, `AwardedAgents` keeps every agent in range |
| Bidding.Credited | server/routers.ts:180-186 | one more completed task and both costs added, nothing else changed; `CreditedMonotone` shows no counter goes down, `CreditDbEffect` that the statistics write is exactly this row |
| Bidding.SettledBounds | server/routers.ts:165-175 | the winner is working at the task area, and its energy and payload are max(0, x - cost): never negative, never higher |
| Bidding.CreditedMonotone | server/routers.ts:180-187 | completedTasks goes up by 1, energy is non-decreasing, pesticide goes up by 10 * density, other columns are kept |
| Engine.Message | server/routers.ts:117-191 | one of the four strings the route returns for each result; `StepIdle`, `StepNeverNoTasksAvailable`, `StepRollback` and `StepAwards` say when each result occurs |
| Engine.StepSpec | server/routers.ts:99-195 | keeps every store well formed; `StepIdle`, `StepRollback` and `StepAwards` give its result and store on each branch, `StepPreservesConsistent` shows it keeps `Consistent` |
| Engine.Step | server/routers.ts:99-195 | the store after the step and the result returned are exactly StepSpec's, the router's sequence of writes |
| Engine.SolicitDb | server/routers.ts:128-143 | keeps the store well formed; `SolicitDbEffect` and `SolicitDbNewBids` show it adds exactly `Solicit`'s bids under the next bid ids and changes nothing else, `SolicitDbListed` that `getBidsByTask` then lists them |
| Engine.CollectBids | server/routers.ts:128-143 | the bidding loop leaves the store as SolicitDb, one createBid per eligible agent in roster order |
| Engine.SettleDb | server/routers.ts:158-188 | keeps the store well formed; nothing is written when the winner is not in the roster, and `SettleDbEffect` shows that otherwise exactly the winner, the task and the simulation row change |
| Engine.SettleWinner | server/routers.ts:168-187 | keeps the store well formed; `SettleWinnerSteps` ties it to the three store calls and `SettleDbEffect` gives the agent as `Settled`, the task as completed and the row as `Credited` |
| Engine.Settle | server/routers.ts:158-188 | the execution and statistics writes leave the store as SettleDb |
| Engine.SettleWinnerSteps | server/routers.ts:168-187 | the agent, task and statistics writes in sequence compose to SettleWinner |
| Engine.CreditDb | server/routers.ts:180-187 | keeps the store well formed; the store is unchanged when the simulation row is missing, and `CreditDbEffect` shows that otherwise only that row changes, to `Credited` |
| Engine.CreditStats | server/routers.ts:180-187 | the re-read and stats write leave the store as CreditDb, unchanged for an unknown run |
| Engine.TaskCount | server/routers.ts:64 | the given count, or 10 when it is omitted; `OmittedCountCreatesTen` shows an omitted count creates ten tasks and records 10 |
| Engine.Iterations | server/routers.ts:80 | how often the loop runs: the count when it is positive, otherwise 0; `CreateSimulationEffect` advances the task ids by this many |
| Engine.DrawInRange | server/routers.ts:84-87 | the ranges the floors of `Math.random` produce; `GeneratedTasksInRange` and the consistency lemmas about creation require it |
| Engine.CreateSimulationSpec | server/routers.ts:61-92 | keeps the store well formed; `CreateSimulationEffect` gives the new row at the next id and the tasks it adds, `CreateSimulationKeepsConsistent` shows it keeps `Consistent` |
| Engine.CreateSimulation | server/routers.ts:61-92 | with the count given or defaulted to 10, the insert and generation loop leave the store, and return the id, as CreateSimulationSpec |
| Engine.SprayTask | server/routers.ts:81-88 | a spray task of the simulation with the draw's priority, area and density; `SprayTaskRow` shows the inserted row is the generated task at its defaults |
| Engine.GenerateTasksDb | server/routers.ts:80-89 | keeps the store well formed; `GenerateTasksEffect` shows it adds one generated row per draw under the next task ids and nothing else, `GenerateTasksListed` that the simulation's task list gains them in order |
| Engine.GenerateTasks | server/routers.ts:80-89 | the loop's createTask calls, one per draw, leave the store as GenerateTasksDb |
| Engine.GenerateTasksSnoc | server/routers.ts:80-89 | one more iteration is one more createTask with the next draw |
| Engine.AgentInput | server/routers.ts:35-40 | the truthy capacity or 5000 for a worker and 0 for a scout, 5000 ml loaded for a worker; `CreatedAgent` gives the row the insert then stores |
| Engine.CreateAgent | server/routers.ts:27-41 | inserts AgentInput's defaults exactly as CreateAgentF |
| Engine.DeleteAgent | server/routers.ts:42-47 | the store after the call is DeleteAgentF's |
| EngineProps.SolicitSnoc | server/routers.ts:128-143 | one more roster entry adds at most one bid, at the end, numbered next |
| EngineProps.NoBidsListed | server/db.ts:195-199 | a task without bid rows has an empty bid list |
| EngineProps.SolicitDbEffect | server/routers.ts:128-143 | the loop adds Solicit's bids under the next bid ids and changes nothing else in the store |
| EngineProps.OffersStep | server/routers.ts:137-141 | one eligible agent more: the earlier bids stay, and its bid is stored under the next id |
| EngineProps.ListedStep | server/routers.ts:137-146 | one eligible agent more: its bid is listed last by getBidsByTask |
| EngineProps.SolicitDbNewBids | server/routers.ts:137-141 | every bid row the loop adds is for the announced task |
| EngineProps.SolicitDbListed | server/routers.ts:128-146 | when the task had no bids, getBidsByTask after the loop lists exactly Solicit's bids |
| EngineProps.StepIdle | server/routers.ts:114-118 | "No pending tasks" is reported exactly when the simulation has no pending task, and then nothing changes |
| EngineProps.StepNeverNoTasksAvailable | server/routers.ts:116-122 | the "No tasks available" branch is unreachable after the length check: neither its result nor its message is ever returned |
| EngineProps.StepBidsListed | server/routers.ts:113-146 | every bid read at the award was created in this step from the roster fetched at its start |
| EngineProps.StepRollback | server/routers.ts:146-150 | "No bids received" exactly when no agent is eligible; the rollback then leaves the store as it was |
| EngineProps.AnnounceUndone | server/routers.ts:125-148 | bidding then pending on a pending, uncompleted task restores the store |
| EngineProps.WinnerFound | server/routers.ts:158 | the winning bidder is found by `find` in the roster and is eligible |
| EngineProps.CreditDbEffect | server/routers.ts:180-187 | for an existing run, the stats write stores Credited of the re-read row |
| EngineProps.SettleDbEffect | server/routers.ts:158-187 | for a found winner: the agent is Settled, the task completed, the run credited |
| EngineProps.BidsByTaskFrame | server/db.ts:195-199 | the bid list depends only on the bid table |
| EngineProps.StepAwardedTo | server/routers.ts:152-158 | with bids on the table, the step awards the winner's bid and settles with the roster it read |
| EngineProps.AwardSettles | server/routers.ts:155-187 | award, settlement and statistics on top of announce and bidding: only their three rows change |
| EngineProps.SettledOver | server/routers.ts:155-187 | the settlement writes read against the store before the award |
| EngineProps.StepAwards | server/routers.ts:99-195 | with an eligible agent: "Step completed" for the first pending task and the winner; the winner settled, the task completed, assigned and time-stamped, the run credited, nothing else changed |
| EngineProps.StepAwardBids | server/routers.ts:128-152 | old bids are kept, the new ones are all for the announced task, and getBidsByTask lists exactly the eligible agents' bids |
| EngineProps.WinnerIsBest | server/routers.ts:152 | the winner's bid is no higher than any eligible agent's, and strictly lower than every earlier one's |
| EngineProps.BestBidder | server/routers.ts:152 | WinnerIsBest stated on a roster |
| EngineProps.NearerWorkerWins | server/routers.ts:152 | of two eligible equal-energy workers, the strictly farther one never wins |
| EngineProps.CompletedWithinTotal | server/routers.ts:64-89 | in a consistent store, a run with totalTasks >= 0 has 0 <= completedTasks <= totalTasks |
| EngineProps.AwardedTallies | server/routers.ts:177-186 | completing one pending task of the run and crediting that run with one more completed task keeps every run tallied |
| EngineProps.StepPreservesConsistent | server/routers.ts:99-195 | every step keeps the store invariant: no task left bidding or assigned, bids only for completed tasks |
| EngineProps.AwardKeepsConsistent | server/routers.ts:152-187 | the awarding branch keeps the invariant |
| EngineProps.AwardedConsistent | server/routers.ts:155-187 | the award's effect keeps the invariant |
| EngineProps.AwardedTasks | server/routers.ts:155-177 | after the award every task is at rest and every bid belongs to a completed task |
| EngineProps.AwardedAgents | server/routers.ts:168-175 | after settlement every agent's energy is in [0,100] and its payload non-negative |
| EngineProps.AwardedCounters | server/routers.ts:180-187 | after crediting every run's counters are non-negative |
| CreationProps.SprayTaskRow | server/routers.ts:81-88 | the row for one draw is a pending spray task of the simulation with the drawn values |
| CreationProps.GenerateTasksEffect | server/routers.ts:80-89 | the loop adds exactly one generated row per draw under the next task ids and changes nothing else |
| CreationProps.GeneratedStep | server/routers.ts:80-89 | one draw more: its task is listed last for the simulation |
| CreationProps.GenerateTasksListed | server/routers.ts:80-89 | the simulation's task list after the loop is its earlier tasks, then the generated ones in order |
| CreationProps.NoTasksListed | server/db.ts:141-145 | a simulation no task refers to has an empty task list |
| CreationProps.CreateSimulationEffect | server/routers.ts:61-92 | a fresh run with totalTasks = the count (10 when omitted) and zero counters; exactly max(count, 0) tasks listed for it; agents and bids untouched |
| CreationProps.OmittedCountCreatesTen | server/routers.ts:64-89 | a creation without a count records totalTasks 10 and lists ten tasks |
| CreationProps.GeneratedTasksInRange | server/routers.ts:83-87 | every generated task is a pending spray task with priority in [1,10] and area and density in [0,99] |
| CreationProps.CreateSimulationKeepsConsistent | server/routers.ts:61-92 | simulation creation keeps the store invariant |
| CreationProps.SimulationAddedConsistent | server/routers.ts:70-73 | a new run row with zero counters keeps every row consistent |
| CreationProps.GeneratedConsistent | server/routers.ts:80-89 | generated tasks for an existing run keep every row consistent |
| CreationProps.CreatedTallies | server/routers.ts:70-89 | after the creation, the new run has Iterations(totalTasks) tasks and none completed, and every earlier run keeps its tallies |
| CreationProps.NewSimulationTallied | server/routers.ts:80-89 | the new run lists exactly its generated tasks, none of them completed |
| CreationProps.GeneratedScanKept | server/routers.ts:80-89 | a count that never selects a task of the new run is the same after the generation loop |
| CreationProps.NewTasksConsistent | server/routers.ts:80-89 | every old and generated task belongs to an existing run, is at rest and in range |
| CreationProps.CreatedAgent | server/routers.ts:35-40 | payload 5000 for a worker and 0 for a scout; capacity the given value when truthy, else 5000 or 0; idle at (0,0) with energy 100 |
| CreationProps.LoadMayExceedCapacity | server/routers.ts:38-39 | a worker created with capacity 100 carries 5000: load within capacity is not guaranteed |
| CreationProps.CreateAgentKeepsConsistent | server/routers.ts:27-41 | agent creation keeps the store invariant |
| CreationProps.DeleteAgentKeepsConsistent | server/routers.ts:42-47 | agent deletion keeps the store invariant |
| CreationProps.TalliesKept | server/routers.ts:27-47 | a call that leaves the tasks and runs untouched keeps every run tallied |
| Runs.ApplyKeepsConsistent | server/routers.ts:27-195 | every router mutation keeps the store invariant |
| Runs.RunKeepsConsistent | server/routers.ts:27-195 | any sequence of mutations keeps the store invariant |
| Runs.ReachableStoresAtRest | server/routers.ts:99-195 | in every sequential run, between calls every task is pending or completed and every bid belongs to a completed task |
| Runs.RunSnoc | server/routers.ts:27-195 | running one call more applies it to the store the earlier calls leave |
| Runs.ScenarioSetUp | server/mas.test.ts:230-241 | creating the worker and the one-task simulation leaves the store holding exactly those rows |
| Runs.ScenarioSimulationCreated | server/routers.ts:61-92 | the creation call with one draw at (1, 1) writes the run and its one pending task |
| Runs.ScenarioEnergy | server/routers.ts:160-165 | from the origin to (1, 1) the energy cost is 0 |
| Runs.ScenarioStep | server/routers.ts:99-195 | the step on that store completes task 1 with agent 1, raises completedTasks to 1 and leaves totalEnergyUsed at 0 |
| Runs.CompletedStepMayUseNoEnergy | server/mas.test.ts:226-257 | after the test's three calls, with the task at (1, 1), one task is completed and totalEnergyUsed is 0 |
| Runs.ReachableCompletedWithinTotal | server/routers.ts:61-186 | in every reachable store, each run has Iterations(totalTasks) tasks listed, completedTasks equals its completed tasks, and 0 <= completedTasks <= totalTasks when totalTasks >= 0 |
| Runs.NegativeCountBreaksBound | server/routers.ts:61-92 | the creation call with count -1 leaves a consistent store whose run has totalTasks -1, completedTasks 0 and no tasks |
| Runs.ReachableStepOutcome | server/routers.ts:113-194 | in every reachable store: pending/no-bids outcomes as their conditions say, a completed step names the first pending task and a winner found in the roster, and never "No tasks available" |

## Left out

- Authentication, the system router and logout (`server/routers.ts:9-19`), and `getDb`, `upsertUser` and `getUserByOpenId`: session and connection handling in a foreign library.
- The `list`, `get` and `getTasks` query routes: each passes a store query through unchanged. `getAllSimulations` orders by `startTime`, and start times are not modelled.
- The "Database not available" errors, the dynamic `import("./db")` and the `insertId` extraction: the store is always present, and inserts return their id directly.
- Timestamps: `createdAt`, `updatedAt`, `startTime` and bid `timestamp` are not modelled. `completedAt` holds the `now` parameter, and `endTime` is only ever absent.
- `Math.random`: each generated task's draws (`TaskDraw`) are parameters. `DrawInRange` gives the ranges the floors produce. `GeneratedTasksInRange`, the consistency lemmas about creation (`CreateSimulationKeepsConsistent`, `GeneratedConsistent`, `NewTasksConsistent`) and `Runs.Admissible` require it; `Math.random()` lies in [0, 1), so the draws meet it.
- Name lengths: the `name` columns are `varchar(100)` for agents (drizzle/schema.ts:32) and `varchar(200)` for simulations (drizzle/schema.ts:59), but the routes accept any `z.string()`, so an over-long name makes the insert fail. The model's names are unbounded strings and its inserts always succeed.
- `Math.sqrt` and floating point: replaced by the integer floor root. Every stored value is the same.
- Row order: SQL does not promise an order for these selects. The model fixes ascending id order, which is what a plain table scan gives.
- Store.PatchSimulation: `updateSimulationStats` accepts any partial run row, including `id` and `startTime`. The model's patch cannot change those two columns. Its only caller, the step's statistics write, passes just the three counters.
- Integer widths: the columns are MySQL `int` (32-bit). The model uses unbounded integers, so counter overflow is not modelled.
- Fractional or NaN inputs, and zod input validation: inputs are integers, and ids are naturals. The routes accept any `z.number()`, including a negative id. Such an id finds no row: `step` answers "No pending tasks" and `agents.delete` changes nothing. These calls are not modelled.
- Concurrent steps, including the lost update on the simulation counters: calls run strictly one after another.
- The client page and its one-second step driver, and the test file's database reset: not part of the engine.
- Runs.ReachableCompletedWithinTotal: proves `completedTasks <= totalTasks` only for runs with `totalTasks >= 0`. The code accepts a negative `taskCount`, and then `totalTasks < 0 = completedTasks` (`Runs.NegativeCountBreaksBound`).
- Bidding.SettledBounds: requires non-negative energy, payload and density, which the code does not check. The store invariant `Consistent` keeps these ranges in every reachable store.
- Bidding.CreditedMonotone: requires a non-negative density, for the same reason.
