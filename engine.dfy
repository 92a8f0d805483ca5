/**
 * The Contract-Net engine: the three mutations of the multi-agent router.
 *
 * - `Step` runs one announce → bid → award → settle → stats round for a simulation.
 * - `CreateSimulation` writes a simulation row and its batch of random spray tasks.
 * - `CreateAgent` fills in the payload defaults before inserting an agent;
 *   `DeleteAgent` is a pass-through.
 *
 * Each method runs its sequence of store calls on a `RecordStore` and is proved to leave
 * the store as its specification function says. The specification functions repeat the
 * same sequence of writes on the store's value, so that lemmas can reason about them.
 */
module Engine {
  import opened Wrappers
  import opened Schema
  import opened Store
  import opened Bidding

  /** What a step reports; `Message` gives the exact strings the caller sees. */
  datatype StepResult =
    | NoPendingTasks
    | NoTasksAvailable
    | NoBidsReceived
    | StepCompleted(taskId: nat, assignedTo: nat)

  function Message(r: StepResult): string {
    match r
    case NoPendingTasks => "No pending tasks"
    case NoTasksAvailable => "No tasks available"
    case NoBidsReceived => "No bids received"
    case StepCompleted(_, _) => "Step completed"
  }

  datatype StepOutcome = StepOutcome(db: Db, result: StepResult)

  // ---------------------------------------------------------------- one step

  /** The store after the bidding loop: one createBid per eligible agent, in roster order. */
  function SolicitDb(db: Db, roster: seq<Agent>, task: Task): (r: Db)
    ensures WellFormed(db) ==> WellFormed(r)
    decreases |roster|
  {
    if roster == [] then db
    else
      var d := SolicitDb(db, roster[..|roster| - 1], task);
      var a := roster[|roster| - 1];
      if Eligible(a) then CreateBidF(d, NewBid(task.id, a.id, BidValue(a, task))).0 else d
  }

  /**
   * The execution and statistics writes after the award: only when the winner is found in
   * the roster fetched at the start of the step, and the statistics only when the
   * simulation row exists.
   */
  function SettleDb(db: Db, roster: seq<Agent>, task: Task, winnerId: nat, simulationId: nat, now: nat): (r: Db)
    ensures WellFormed(db) ==> WellFormed(r)
  {
    var winningAgent := FindAgent(roster, winnerId);
    if winningAgent.None? then db else SettleWinner(db, winningAgent.value, task, simulationId, now)
  }

  /** The three writes once the winner is found: move and deplete it, complete the task, credit the simulation. */
  function SettleWinner(db: Db, w: Agent, task: Task, simulationId: nat, now: nat): (r: Db)
    ensures WellFormed(db) ==> WellFormed(r)
  {
    CreditDb(UpdateTaskStatusF(UpdateAgentStatusF(db, w.id, Working, Some(task.areaX), Some(task.areaY),
                                                  Some(Max(0, w.energyLevel - EnergyCost(w, task))),
                                                  Some(Max(0, w.currentPayload - PesticideUsed(task)))),
                               task.id, Completed, None, now),
             simulationId, EnergyCost(w, task), PesticideUsed(task))
  }

  /** The statistics write: the re-read simulation row with its counters advanced, if the row exists. */
  function CreditDb(db: Db, simulationId: nat, energyCost: int, pesticideUsed: int): (r: Db)
    ensures WellFormed(db) ==> WellFormed(r)
  {
    match SimulationById(db, simulationId)
    case None => db
    case Some(sim) =>
      UpdateSimulationStatsF(db, simulationId,
        SimulationPatch(None, None, None, Some(sim.completedTasks + 1), Some(sim.totalEnergyUsed + energyCost),
                        Some(sim.totalPesticideUsed + pesticideUsed), None))
  }

  /** `simulations.step`: the store and the result after one step, as the router's sequence of store calls. */
  function StepSpec(db: Db, simulationId: nat, now: nat): (r: StepOutcome)
    requires WellFormed(db)
    ensures WellFormed(r.db)
  {
    var agents := AllAgents(db);
    var pendingTasks := PendingTasks(db, simulationId);
    if |pendingTasks| == 0 then StepOutcome(db, NoPendingTasks)
    else
      match First(pendingTasks)
      case None => StepOutcome(db, NoTasksAvailable)
      case Some(task) =>
        var announced := UpdateTaskStatusF(db, task.id, Bidding, None, now);
        var solicited := SolicitDb(announced, agents, task);
        var bids := BidsByTask(solicited, task.id);
        if |bids| == 0 then
          StepOutcome(UpdateTaskStatusF(solicited, task.id, Pending, None, now), NoBidsReceived)
        else
          (var bestBid := bids[BestBidIndex(bids)];
           var awarded := UpdateTaskStatusF(solicited, task.id, Assigned, Some(bestBid.agentId), now);
           StepOutcome(SettleDb(awarded, agents, task, bestBid.agentId, simulationId, now),
                       StepCompleted(task.id, bestBid.agentId)))
  }

  method Step(store: RecordStore, simulationId: nat, now: nat) returns (r: StepResult)
    requires store.Valid()
    modifies store
    ensures store.Valid()
    ensures StepOutcome(store.Snapshot(), r) == StepSpec(old(store.Snapshot()), simulationId, now)
  {
    ghost var db := store.Snapshot();
    var agents := store.GetAllAgents();
    var pendingTasks := store.GetPendingTasks(simulationId);
    if |pendingTasks| == 0 {
      return NoPendingTasks;
    }

    // Announcement
    var task := pendingTasks[0];
    assert First(pendingTasks) == Some(task);
    store.UpdateTaskStatus(task.id, Bidding, None, now);

    // Bids
    CollectBids(store, agents, task);
    ghost var solicited := store.Snapshot();
    assert solicited == SolicitDb(UpdateTaskStatusF(db, task.id, Bidding, None, now), agents, task);

    // Award
    var bids := store.GetBidsByTask(task.id);
    if |bids| == 0 {
      store.UpdateTaskStatus(task.id, Pending, None, now);
      return NoBidsReceived;
    }
    var bestBid := bids[BestBidIndex(bids)];
    store.UpdateTaskStatus(task.id, Assigned, Some(bestBid.agentId), now);

    // Execution and statistics
    Settle(store, agents, task, bestBid.agentId, simulationId, now);
    r := StepCompleted(task.id, bestBid.agentId);
  }

  /** The bidding loop: for each agent of the roster, in order, a bid when the agent is eligible. */
  method CollectBids(store: RecordStore, agents: seq<Agent>, task: Task)
    requires store.Valid()
    modifies store
    ensures store.Valid()
    ensures store.Snapshot() == SolicitDb(old(store.Snapshot()), agents, task)
  {
    ghost var announced := store.Snapshot();
    for i := 0 to |agents|
      invariant store.Valid()
      invariant store.Snapshot() == SolicitDb(announced, agents[..i], task)
    {
      var agent := agents[i];
      assert agents[..i + 1][..i] == agents[..i];
      if Eligible(agent) {
        var bidValue := BidValue(agent, task);
        var _ := store.CreateBid(NewBid(task.id, agent.id, bidValue));
      }
    }
    assert agents[..|agents|] == agents;
  }

  /** Execution and statistics for the awarded task. */
  method Settle(store: RecordStore, agents: seq<Agent>, task: Task, winnerId: nat, simulationId: nat, now: nat)
    requires store.Valid()
    modifies store
    ensures store.Valid()
    ensures store.Snapshot() == SettleDb(old(store.Snapshot()), agents, task, winnerId, simulationId, now)
  {
    ghost var db := store.Snapshot();
    var winningAgent := FindAgent(agents, winnerId);
    if winningAgent.Some? {
      var w := winningAgent.value;
      var energyCost := EnergyCost(w, task);
      var pesticideUsed := PesticideUsed(task);
      store.UpdateAgentStatus(w.id, Working, Some(task.areaX), Some(task.areaY),
                              Some(Max(0, w.energyLevel - energyCost)),
                              Some(Max(0, w.currentPayload - pesticideUsed)));
      ghost var moved := store.Snapshot();
      store.UpdateTaskStatus(task.id, Completed, None, now);
      ghost var completed := store.Snapshot();
      CreditStats(store, simulationId, energyCost, pesticideUsed);
      SettleWinnerSteps(db, w, task, simulationId, now, moved, completed, store.Snapshot());
    }
  }

  /** The three writes of SettleWinner, one store state at a time. */
  lemma SettleWinnerSteps(db: Db, w: Agent, task: Task, simulationId: nat, now: nat, moved: Db, completed: Db, credited: Db)
    requires moved == UpdateAgentStatusF(db, w.id, Working, Some(task.areaX), Some(task.areaY),
                                         Some(Max(0, w.energyLevel - EnergyCost(w, task))),
                                         Some(Max(0, w.currentPayload - PesticideUsed(task))))
    requires completed == UpdateTaskStatusF(moved, task.id, Completed, None, now)
    requires credited == CreditDb(completed, simulationId, EnergyCost(w, task), PesticideUsed(task))
    ensures credited == SettleWinner(db, w, task, simulationId, now)
  {
    assert completed == UpdateTaskStatusF(UpdateAgentStatusF(db, w.id, Working, Some(task.areaX), Some(task.areaY),
                                                             Some(Max(0, w.energyLevel - EnergyCost(w, task))),
                                                             Some(Max(0, w.currentPayload - PesticideUsed(task)))),
                                          task.id, Completed, None, now);
  }

  /** Re-reads the simulation row and writes back its advanced counters. */
  method CreditStats(store: RecordStore, simulationId: nat, energyCost: int, pesticideUsed: int)
    requires store.Valid()
    modifies store
    ensures store.Valid()
    ensures store.Snapshot() == CreditDb(old(store.Snapshot()), simulationId, energyCost, pesticideUsed)
  {
    var sim := store.GetSimulationById(simulationId);
    if sim.Some? {
      store.UpdateSimulationStats(simulationId,
        SimulationPatch(None, None, None, Some(sim.value.completedTasks + 1),
                        Some(sim.value.totalEnergyUsed + energyCost),
                        Some(sim.value.totalPesticideUsed + pesticideUsed), None));
    }
  }

  // ---------------------------------------------------------------- simulation creation

  /** The values four Math.random draws give one generated task. */
  datatype TaskDraw = TaskDraw(priority: int, areaX: int, areaY: int, infestationDensity: int)

  /** floor(random * 10) + 1 lies in [1, 10]; floor(random * 100) lies in [0, 99]. */
  predicate DrawInRange(d: TaskDraw) {
    1 <= d.priority <= 10 && 0 <= d.areaX < 100 && 0 <= d.areaY < 100 && 0 <= d.infestationDensity < 100
  }

  const DefaultTaskCount := 10

  /** The count a creation runs with: the one given, or the input schema's default of 10 when it is omitted. */
  function TaskCount(taskCount: Option<int>): int {
    taskCount.GetOr(DefaultTaskCount)
  }

  /** How often `for (let i = 0; i < taskCount; i++)` runs. */
  function Iterations(taskCount: int): nat {
    if taskCount > 0 then taskCount else 0
  }

  /** The task insert for one draw: a spray task of the simulation, otherwise at the column defaults. */
  function SprayTask(simulationId: nat, d: TaskDraw): NewTask {
    NewTask(simulationId, Spray, Some(d.priority), None, d.areaX, d.areaY, Some(d.infestationDensity), None, None)
  }

  /** The store after the generation loop: one createTask per draw, in order. */
  function GenerateTasksDb(db: Db, simulationId: nat, draws: seq<TaskDraw>): (r: Db)
    ensures WellFormed(db) ==> WellFormed(r)
    decreases |draws|
  {
    if draws == [] then db
    else
      var d := GenerateTasksDb(db, simulationId, draws[..|draws| - 1]);
      CreateTaskF(d, SprayTask(simulationId, draws[|draws| - 1])).0
  }

  /** One draw more is one createTask more. */
  lemma GenerateTasksSnoc(db: Db, simulationId: nat, draws: seq<TaskDraw>, d: TaskDraw, before: Db, after: Db)
    requires before == GenerateTasksDb(db, simulationId, draws)
    requires after == CreateTaskF(before, SprayTask(simulationId, d)).0
    ensures after == GenerateTasksDb(db, simulationId, draws + [d])
  {
    assert (draws + [d])[..|draws|] == draws;
  }

  /** `simulations.create`: the store after the insert and the generation loop, and the new id. */
  function CreateSimulationSpec(db: Db, name: string, taskCount: Option<int>, draws: seq<TaskDraw>): (r: (Db, nat))
    requires |draws| == Iterations(TaskCount(taskCount))
    ensures WellFormed(db) ==> WellFormed(r.0)
  {
    var (created, simulationId) := CreateSimulationF(db, NewSimulation(name, None, Some(TaskCount(taskCount)), None, None, None, None));
    (GenerateTasksDb(created, simulationId, draws), simulationId)
  }

  method CreateSimulation(store: RecordStore, name: string, taskCount: Option<int>, draws: seq<TaskDraw>)
    returns (simulationId: nat)
    requires store.Valid()
    requires |draws| == Iterations(TaskCount(taskCount))
    modifies store
    ensures store.Valid()
    ensures (store.Snapshot(), simulationId) == CreateSimulationSpec(old(store.Snapshot()), name, taskCount, draws)
  {
    ghost var db := store.Snapshot();
    var count := TaskCount(taskCount);
    simulationId := store.CreateSimulation(NewSimulation(name, None, Some(count), None, None, None, None));
    ghost var created := store.Snapshot();
    assert CreateSimulationSpec(db, name, taskCount, draws) == (GenerateTasksDb(created, simulationId, draws), simulationId);
    GenerateTasks(store, simulationId, count, draws);
  }

  /** The generation loop: `count` createTask calls, the i-th with the i-th draw. */
  method GenerateTasks(store: RecordStore, simulationId: nat, count: int, draws: seq<TaskDraw>)
    requires store.Valid()
    requires |draws| == Iterations(count)
    modifies store
    ensures store.Valid()
    ensures store.Snapshot() == GenerateTasksDb(old(store.Snapshot()), simulationId, draws)
  {
    ghost var created := store.Snapshot();
    var i := 0;
    while i < count
      invariant 0 <= i <= |draws|
      invariant store.Valid()
      invariant store.Snapshot() == GenerateTasksDb(created, simulationId, draws[..i])
    {
      var d := draws[i];
      assert draws[..i + 1] == draws[..i] + [d];
      ghost var before := store.Snapshot();
      var _ := store.CreateTask(SprayTask(simulationId, d));
      GenerateTasksSnoc(created, simulationId, draws[..i], d, before, store.Snapshot());
      i := i + 1;
    }
    assert i == |draws| && draws[..i] == draws;
  }

  // ---------------------------------------------------------------- agents

  const DefaultWorkerPayload := 5000

  /**
   * The insert `agents.create` makes: the given capacity when it is truthy (supplied and
   * non-zero), otherwise 5000 ml for a worker and 0 for a scout; a worker starts with
   * 5000 ml loaded, a scout with none. Every other column is left to its default.
   */
  function AgentInput(kind: AgentKind, name: string, payloadCapacity: Option<int>): NewAgent {
    var fallback := if kind == Worker then DefaultWorkerPayload else 0;
    var capacity := if payloadCapacity.Some? && payloadCapacity.value != 0 then payloadCapacity.value else fallback;
    NewAgent(kind, name, None, None, None, None, Some(capacity), Some(if kind == Worker then DefaultWorkerPayload else 0))
  }

  method CreateAgent(store: RecordStore, kind: AgentKind, name: string, payloadCapacity: Option<int>)
    returns (id: nat)
    requires store.Valid()
    modifies store
    ensures store.Valid()
    ensures (store.Snapshot(), id) == CreateAgentF(old(store.Snapshot()), AgentInput(kind, name, payloadCapacity))
  {
    id := store.CreateAgent(AgentInput(kind, name, payloadCapacity));
  }

  method DeleteAgent(store: RecordStore, id: nat)
    requires store.Valid()
    modifies store
    ensures store.Valid()
    ensures store.Snapshot() == DeleteAgentF(old(store.Snapshot()), id)
  {
    store.DeleteAgent(id);
  }
}
