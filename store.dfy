/**
 * The record store behind the engine: the multi-agent queries and updates of the
 * data-access layer, over four id-keyed tables with one auto-increment counter each.
 *
 * `Db` is the store's value; the functions below say what each operation does to it or
 * reads from it. `RecordStore` is the store as the engine uses it: an object whose
 * methods update its tables in place, each proved equal to its function.
 */
module Store {
  import opened Wrappers
  import opened Schema
  import opened Tables

  datatype Db = Db(
    agents: map<nat, Agent>,
    tasks: map<nat, Task>,
    simulations: map<nat, SimulationRun>,
    bids: map<nat, TaskBid>,
    nextAgentId: nat,
    nextTaskId: nat,
    nextSimulationId: nat,
    nextBidId: nat)

  /** Keys are positive, below their table's counter, and equal to the row's own id. */
  ghost predicate WellFormed(db: Db) {
    && 1 <= db.nextAgentId && 1 <= db.nextTaskId && 1 <= db.nextSimulationId && 1 <= db.nextBidId
    && (forall k :: k in db.agents ==> 1 <= k < db.nextAgentId && db.agents[k].id == k)
    && (forall k :: k in db.tasks ==> 1 <= k < db.nextTaskId && db.tasks[k].id == k)
    && (forall k :: k in db.simulations ==> 1 <= k < db.nextSimulationId && db.simulations[k].id == k)
    && (forall k :: k in db.bids ==> 1 <= k < db.nextBidId && db.bids[k].id == k)
  }

  /** A store with no rows; every auto-increment counter starts at 1. */
  function Empty(): (db: Db)
    ensures WellFormed(db)
    ensures db.agents == map[] && db.tasks == map[] && db.simulations == map[] && db.bids == map[]
  {
    Db(map[], map[], map[], map[], 1, 1, 1, 1)
  }

  // ---------------------------------------------------------------- queries

  function AnyAgent(): Agent -> bool { (a: Agent) => true }
  function OfSimulation(simulationId: nat): Task -> bool { (t: Task) => t.simulationId == simulationId }
  function PendingOf(simulationId: nat): Task -> bool {
    (t: Task) => t.simulationId == simulationId && t.status == Pending
  }
  function CompletedOf(simulationId: nat): Task -> bool {
    (t: Task) => t.simulationId == simulationId && t.status == Completed
  }
  function OfTask(taskId: nat): TaskBid -> bool { (b: TaskBid) => b.taskId == taskId }
  function AgentWithId(id: nat): Agent -> bool { (a: Agent) => a.id == id }
  function SimulationWithId(id: nat): SimulationRun -> bool { (s: SimulationRun) => s.id == id }

  /** getAllAgents: every agent, in id order. */
  function AllAgents(db: Db): (r: seq<Agent>)
    requires WellFormed(db)
    ensures forall i :: 0 <= i < |r| ==> r[i].id in db.agents && db.agents[r[i].id] == r[i]
    ensures forall k :: k in db.agents ==> db.agents[k] in r
    ensures forall i, j :: 0 <= i < j < |r| ==> r[i].id < r[j].id
  {
    var ks := SelectKeys(db.agents, db.nextAgentId, AnyAgent());
    var r := Rows(db.agents, ks);
    assert forall k :: k in db.agents ==> k in ks;
    assert forall i :: 0 <= i < |ks| ==> r[i] == db.agents[ks[i]];
    r
  }

  /** getAgentById: the agent with that id, absent for an unknown id. */
  function AgentById(db: Db, id: nat): (r: Option<Agent>)
    ensures r.None? <==> id !in db.agents
    ensures r.Some? ==> r.value == db.agents[id]
  {
    if id in db.agents then Some(db.agents[id]) else None
  }

  /** getTasksBySimulation: exactly the tasks of that simulation, in id order. */
  function TasksBySimulation(db: Db, simulationId: nat): (r: seq<Task>)
    requires WellFormed(db)
    ensures forall i :: 0 <= i < |r| ==>
              r[i].id in db.tasks && db.tasks[r[i].id] == r[i] && r[i].simulationId == simulationId
    ensures forall k :: k in db.tasks && db.tasks[k].simulationId == simulationId ==> db.tasks[k] in r
    ensures forall i, j :: 0 <= i < j < |r| ==> r[i].id < r[j].id
  {
    var ks := SelectKeys(db.tasks, db.nextTaskId, OfSimulation(simulationId));
    var r := Rows(db.tasks, ks);
    assert forall k :: k in db.tasks && OfSimulation(simulationId)(db.tasks[k]) ==> k in ks;
    r
  }

  /** getPendingTasks: exactly the pending tasks of that simulation, in id order. */
  function PendingTasks(db: Db, simulationId: nat): (r: seq<Task>)
    requires WellFormed(db)
    ensures forall i :: 0 <= i < |r| ==>
              r[i].id in db.tasks && db.tasks[r[i].id] == r[i]
              && r[i].simulationId == simulationId && r[i].status == Pending
    ensures forall k ::
              k in db.tasks && db.tasks[k].simulationId == simulationId && db.tasks[k].status == Pending
              ==> db.tasks[k] in r
    ensures forall i, j :: 0 <= i < j < |r| ==> r[i].id < r[j].id
  {
    var ks := SelectKeys(db.tasks, db.nextTaskId, PendingOf(simulationId));
    var r := Rows(db.tasks, ks);
    assert forall k :: k in db.tasks && PendingOf(simulationId)(db.tasks[k]) ==> k in ks;
    r
  }

  /** getSimulationById: the simulation with that id, absent for an unknown id. */
  function SimulationById(db: Db, id: nat): (r: Option<SimulationRun>)
    ensures r.None? <==> id !in db.simulations
    ensures r.Some? ==> r.value == db.simulations[id]
  {
    if id in db.simulations then Some(db.simulations[id]) else None
  }

  /** getBidsByTask: exactly the bids for that task, in id (creation) order. */
  function BidsByTask(db: Db, taskId: nat): (r: seq<TaskBid>)
    requires WellFormed(db)
    ensures forall i :: 0 <= i < |r| ==>
              r[i].id in db.bids && db.bids[r[i].id] == r[i] && r[i].taskId == taskId
    ensures forall k :: k in db.bids && db.bids[k].taskId == taskId ==> db.bids[k] in r
    ensures forall i, j :: 0 <= i < j < |r| ==> r[i].id < r[j].id
  {
    var ks := SelectKeys(db.bids, db.nextBidId, OfTask(taskId));
    var r := Rows(db.bids, ks);
    assert forall k :: k in db.bids && OfTask(taskId)(db.bids[k]) ==> k in ks;
    r
  }

  // ---------------------------------------------------------------- updates

  /** createAgent: one new row under a fresh id; nothing else changes. */
  function CreateAgentF(db: Db, a: NewAgent): (r: (Db, nat))
    ensures r.1 == db.nextAgentId && r.0.nextAgentId == r.1 + 1
    ensures r.0 == db.(agents := r.0.agents, nextAgentId := r.0.nextAgentId)
    ensures r.0.agents == db.agents[r.1 := AgentRow(r.1, a)]
    ensures WellFormed(db) ==> WellFormed(r.0) && r.1 !in db.agents
  {
    var id := db.nextAgentId;
    (db.(agents := db.agents[id := AgentRow(id, a)], nextAgentId := id + 1), id)
  }

  /** The partial update of updateAgentStatus: status always, every other argument only when supplied. */
  function PatchAgent(a: Agent, status: AgentStatus, positionX: Option<int>, positionY: Option<int>,
                      energyLevel: Option<int>, currentPayload: Option<int>): (r: Agent)
    ensures r.status == status
    ensures r.positionX == (if positionX.Some? then positionX.value else a.positionX)
    ensures r.positionY == (if positionY.Some? then positionY.value else a.positionY)
    ensures r.energyLevel == (if energyLevel.Some? then energyLevel.value else a.energyLevel)
    ensures r.currentPayload == (if currentPayload.Some? then currentPayload.value else a.currentPayload)
    ensures r.(status := a.status, positionX := a.positionX, positionY := a.positionY,
               energyLevel := a.energyLevel, currentPayload := a.currentPayload) == a
  {
    a.(status := status, positionX := positionX.GetOr(a.positionX), positionY := positionY.GetOr(a.positionY),
       energyLevel := energyLevel.GetOr(a.energyLevel), currentPayload := currentPayload.GetOr(a.currentPayload))
  }

  /** updateAgentStatus: patches the agent with that id (no row, no change); other agents untouched. */
  function UpdateAgentStatusF(db: Db, id: nat, status: AgentStatus, positionX: Option<int>, positionY: Option<int>,
                              energyLevel: Option<int>, currentPayload: Option<int>): (r: Db)
    ensures r == db.(agents := r.agents)
    ensures r.agents.Keys == db.agents.Keys
    ensures forall k :: k in db.agents && k != id ==> r.agents[k] == db.agents[k]
    ensures id in db.agents ==>
              r.agents[id] == PatchAgent(db.agents[id], status, positionX, positionY, energyLevel, currentPayload)
    ensures WellFormed(db) ==> WellFormed(r)
  {
    if id in db.agents then
      db.(agents := db.agents[id := PatchAgent(db.agents[id], status, positionX, positionY, energyLevel, currentPayload)])
    else db
  }

  /** deleteAgent: removes only the agent with that id. */
  function DeleteAgentF(db: Db, id: nat): (r: Db)
    ensures r == db.(agents := r.agents)
    ensures r.agents.Keys == db.agents.Keys - {id}
    ensures forall k :: k in r.agents ==> r.agents[k] == db.agents[k]
    ensures WellFormed(db) ==> WellFormed(r)
  {
    db.(agents := db.agents - {id})
  }

  /** createTask: one new row under a fresh id; nothing else changes. */
  function CreateTaskF(db: Db, t: NewTask): (r: (Db, nat))
    ensures r.1 == db.nextTaskId && r.0.nextTaskId == r.1 + 1
    ensures r.0 == db.(tasks := r.0.tasks, nextTaskId := r.0.nextTaskId)
    ensures r.0.tasks == db.tasks[r.1 := TaskRow(r.1, t)]
    ensures WellFormed(db) ==> WellFormed(r.0) && r.1 !in db.tasks
  {
    var id := db.nextTaskId;
    (db.(tasks := db.tasks[id := TaskRow(id, t)], nextTaskId := id + 1), id)
  }

  /**
   * The partial update of updateTaskStatus: the status always; the assigned agent only when
   * one is supplied; the completion time exactly when the new status is completed.
   */
  function PatchTask(t: Task, status: TaskStatus, assignedAgentId: Option<nat>, now: nat): (r: Task)
    ensures r.status == status
    ensures r.assignedAgentId == (if assignedAgentId.Some? then assignedAgentId else t.assignedAgentId)
    ensures r.completedAt == (if status == Completed then Some(now) else t.completedAt)
    ensures r.(status := t.status, assignedAgentId := t.assignedAgentId, completedAt := t.completedAt) == t
  {
    t.(status := status,
       assignedAgentId := if assignedAgentId.Some? then assignedAgentId else t.assignedAgentId,
       completedAt := if status == Completed then Some(now) else t.completedAt)
  }

  /** updateTaskStatus: patches the task with that id (no row, no change); other tasks untouched. */
  function UpdateTaskStatusF(db: Db, id: nat, status: TaskStatus, assignedAgentId: Option<nat>, now: nat): (r: Db)
    ensures r == db.(tasks := r.tasks)
    ensures r.tasks.Keys == db.tasks.Keys
    ensures forall k :: k in db.tasks && k != id ==> r.tasks[k] == db.tasks[k]
    ensures id in db.tasks ==> r.tasks[id] == PatchTask(db.tasks[id], status, assignedAgentId, now)
    ensures WellFormed(db) ==> WellFormed(r)
  {
    if id in db.tasks then db.(tasks := db.tasks[id := PatchTask(db.tasks[id], status, assignedAgentId, now)])
    else db
  }

  /** createSimulation: one new row under a fresh id; nothing else changes. */
  function CreateSimulationF(db: Db, s: NewSimulation): (r: (Db, nat))
    ensures r.1 == db.nextSimulationId && r.0.nextSimulationId == r.1 + 1
    ensures r.0 == db.(simulations := r.0.simulations, nextSimulationId := r.0.nextSimulationId)
    ensures r.0.simulations == db.simulations[r.1 := SimulationRow(r.1, s)]
    ensures WellFormed(db) ==> WellFormed(r.0) && r.1 !in db.simulations
  {
    var id := db.nextSimulationId;
    (db.(simulations := db.simulations[id := SimulationRow(id, s)], nextSimulationId := id + 1), id)
  }

  /** A partial simulation row: the columns an update supplies (the id is never rewritten). */
  datatype SimulationPatch = SimulationPatch(
    name: Option<string>,
    status: Option<SimulationStatus>,
    totalTasks: Option<int>,
    completedTasks: Option<int>,
    totalEnergyUsed: Option<int>,
    totalPesticideUsed: Option<int>,
    endTime: Option<Option<nat>>)

  /** The supplied columns overwritten, the others kept. */
  function PatchSimulation(s: SimulationRun, p: SimulationPatch): (r: SimulationRun)
    ensures r.id == s.id
    ensures r.name == p.name.GetOr(s.name) && r.status == p.status.GetOr(s.status)
    ensures r.totalTasks == p.totalTasks.GetOr(s.totalTasks)
    ensures r.completedTasks == p.completedTasks.GetOr(s.completedTasks)
    ensures r.totalEnergyUsed == p.totalEnergyUsed.GetOr(s.totalEnergyUsed)
    ensures r.totalPesticideUsed == p.totalPesticideUsed.GetOr(s.totalPesticideUsed)
    ensures r.endTime == p.endTime.GetOr(s.endTime)
  {
    SimulationRun(s.id, p.name.GetOr(s.name), p.status.GetOr(s.status), p.totalTasks.GetOr(s.totalTasks),
                  p.completedTasks.GetOr(s.completedTasks), p.totalEnergyUsed.GetOr(s.totalEnergyUsed),
                  p.totalPesticideUsed.GetOr(s.totalPesticideUsed), p.endTime.GetOr(s.endTime))
  }

  /** updateSimulationStats: overwrites the supplied columns of that simulation only. */
  function UpdateSimulationStatsF(db: Db, id: nat, p: SimulationPatch): (r: Db)
    ensures r == db.(simulations := r.simulations)
    ensures r.simulations.Keys == db.simulations.Keys
    ensures forall k :: k in db.simulations && k != id ==> r.simulations[k] == db.simulations[k]
    ensures id in db.simulations ==> r.simulations[id] == PatchSimulation(db.simulations[id], p)
    ensures WellFormed(db) ==> WellFormed(r)
  {
    if id in db.simulations then db.(simulations := db.simulations[id := PatchSimulation(db.simulations[id], p)])
    else db
  }

  /** createBid: one new row under a fresh id; nothing else changes. */
  function CreateBidF(db: Db, b: NewBid): (r: (Db, nat))
    ensures r.1 == db.nextBidId && r.0.nextBidId == r.1 + 1
    ensures r.0 == db.(bids := r.0.bids, nextBidId := r.0.nextBidId)
    ensures r.0.bids == db.bids[r.1 := BidRow(r.1, b)]
    ensures WellFormed(db) ==> WellFormed(r.0) && r.1 !in db.bids
  {
    var id := db.nextBidId;
    (db.(bids := db.bids[id := BidRow(id, b)], nextBidId := id + 1), id)
  }

  // ---------------------------------------------------------------- the store object

  class RecordStore {
    var agents: map<nat, Agent>
    var tasks: map<nat, Task>
    var simulations: map<nat, SimulationRun>
    var bids: map<nat, TaskBid>
    var nextAgentId: nat
    var nextTaskId: nat
    var nextSimulationId: nat
    var nextBidId: nat

    function Snapshot(): Db
      reads this
    {
      Db(agents, tasks, simulations, bids, nextAgentId, nextTaskId, nextSimulationId, nextBidId)
    }

    ghost predicate Valid()
      reads this
    {
      WellFormed(Snapshot())
    }

    constructor ()
      ensures Valid() && Snapshot() == Empty()
    {
      agents, tasks, simulations, bids := map[], map[], map[], map[];
      nextAgentId, nextTaskId, nextSimulationId, nextBidId := 1, 1, 1, 1;
    }

    method CreateAgent(a: NewAgent) returns (id: nat)
      modifies this
      ensures (Snapshot(), id) == CreateAgentF(old(Snapshot()), a)
      ensures old(Valid()) ==> Valid()
    {
      id := nextAgentId;
      agents := agents[id := AgentRow(id, a)];
      nextAgentId := nextAgentId + 1;
    }

    /** A scan of the whole agents table. */
    method GetAllAgents() returns (r: seq<Agent>)
      requires Valid()
      ensures r == AllAgents(Snapshot())
    {
      r := Scan(agents, nextAgentId, AnyAgent());
    }

    /** A scan for the rows with that id, of which the first (`limit 1`, `result[0]`) is returned. */
    method GetAgentById(id: nat) returns (r: Option<Agent>)
      requires Valid()
      ensures r == AgentById(Snapshot(), id)
    {
      var rows := Scan(agents, nextAgentId, AgentWithId(id));
      SelectSingleKey(agents, nextAgentId, AgentWithId(id), id);
      r := First(rows);
    }

    method UpdateAgentStatus(id: nat, status: AgentStatus, positionX: Option<int>, positionY: Option<int>,
                             energyLevel: Option<int>, currentPayload: Option<int>)
      modifies this
      ensures Snapshot() == UpdateAgentStatusF(old(Snapshot()), id, status, positionX, positionY, energyLevel, currentPayload)
      ensures old(Valid()) ==> Valid()
    {
      if id in agents {
        var row := agents[id].(status := status);
        if positionX.Some? { row := row.(positionX := positionX.value); }
        if positionY.Some? { row := row.(positionY := positionY.value); }
        if energyLevel.Some? { row := row.(energyLevel := energyLevel.value); }
        if currentPayload.Some? { row := row.(currentPayload := currentPayload.value); }
        agents := agents[id := row];
      }
    }

    method DeleteAgent(id: nat)
      modifies this
      ensures Snapshot() == DeleteAgentF(old(Snapshot()), id)
      ensures old(Valid()) ==> Valid()
    {
      agents := agents - {id};
    }

    method CreateTask(t: NewTask) returns (id: nat)
      modifies this
      ensures (Snapshot(), id) == CreateTaskF(old(Snapshot()), t)
      ensures old(Valid()) ==> Valid()
    {
      id := nextTaskId;
      tasks := tasks[id := TaskRow(id, t)];
      nextTaskId := nextTaskId + 1;
    }

    method GetTasksBySimulation(simulationId: nat) returns (r: seq<Task>)
      requires Valid()
      ensures r == TasksBySimulation(Snapshot(), simulationId)
    {
      r := Scan(tasks, nextTaskId, OfSimulation(simulationId));
    }

    method GetPendingTasks(simulationId: nat) returns (r: seq<Task>)
      requires Valid()
      ensures r == PendingTasks(Snapshot(), simulationId)
    {
      r := Scan(tasks, nextTaskId, PendingOf(simulationId));
    }

    method UpdateTaskStatus(id: nat, status: TaskStatus, assignedAgentId: Option<nat>, now: nat)
      modifies this
      ensures Snapshot() == UpdateTaskStatusF(old(Snapshot()), id, status, assignedAgentId, now)
      ensures old(Valid()) ==> Valid()
    {
      if id in tasks {
        var row := tasks[id].(status := status);
        if assignedAgentId.Some? { row := row.(assignedAgentId := assignedAgentId); }
        if status == Completed { row := row.(completedAt := Some(now)); }
        tasks := tasks[id := row];
      }
    }

    method CreateSimulation(s: NewSimulation) returns (id: nat)
      modifies this
      ensures (Snapshot(), id) == CreateSimulationF(old(Snapshot()), s)
      ensures old(Valid()) ==> Valid()
    {
      id := nextSimulationId;
      simulations := simulations[id := SimulationRow(id, s)];
      nextSimulationId := nextSimulationId + 1;
    }

    /** A scan for the runs with that id, of which the first is returned. */
    method GetSimulationById(id: nat) returns (r: Option<SimulationRun>)
      requires Valid()
      ensures r == SimulationById(Snapshot(), id)
    {
      var rows := Scan(simulations, nextSimulationId, SimulationWithId(id));
      SelectSingleKey(simulations, nextSimulationId, SimulationWithId(id), id);
      r := First(rows);
    }

    method UpdateSimulationStats(id: nat, p: SimulationPatch)
      modifies this
      ensures Snapshot() == UpdateSimulationStatsF(old(Snapshot()), id, p)
      ensures old(Valid()) ==> Valid()
    {
      if id in simulations {
        simulations := simulations[id := PatchSimulation(simulations[id], p)];
      }
    }

    method CreateBid(b: NewBid) returns (id: nat)
      modifies this
      ensures (Snapshot(), id) == CreateBidF(old(Snapshot()), b)
      ensures old(Valid()) ==> Valid()
    {
      id := nextBidId;
      bids := bids[id := BidRow(id, b)];
      nextBidId := nextBidId + 1;
    }

    method GetBidsByTask(taskId: nat) returns (r: seq<TaskBid>)
      requires Valid()
      ensures r == BidsByTask(Snapshot(), taskId)
    {
      r := Scan(bids, nextBidId, OfTask(taskId));
    }
  }
}

/** How each insert shows up in the scans that read its table. */
module StoreScans {
  import opened Schema
  import opened Tables
  import opened Store

  /** A new agent is the last row getAllAgents returns. */
  lemma CreateAgentAppends(db: Db, a: NewAgent)
    requires WellFormed(db)
    ensures var (r, id) := CreateAgentF(db, a);
            AllAgents(r) == AllAgents(db) + [AgentRow(id, a)]
  {
    var (r, id) := CreateAgentF(db, a);
    ScanInsert(db.agents, id, AnyAgent(), AgentRow(id, a));
    assert AllAgents(r) == Rows(r.agents, SelectKeys(r.agents, id + 1, AnyAgent()));
    assert AllAgents(db) == Rows(db.agents, SelectKeys(db.agents, id, AnyAgent()));
  }

  /** A new task is the last row of its simulation's scans, and is invisible to the others. */
  lemma CreateTaskAppends(db: Db, t: NewTask, simulationId: nat)
    requires WellFormed(db)
    ensures var (r, id) := CreateTaskF(db, t);
            TasksBySimulation(r, simulationId)
              == TasksBySimulation(db, simulationId) + (if t.simulationId == simulationId then [TaskRow(id, t)] else [])
  {
    var (r, id) := CreateTaskF(db, t);
    var keep := OfSimulation(simulationId);
    ScanInsert(db.tasks, id, keep, TaskRow(id, t));
    assert TasksBySimulation(r, simulationId) == Rows(r.tasks, SelectKeys(r.tasks, id + 1, keep));
    assert TasksBySimulation(db, simulationId) == Rows(db.tasks, SelectKeys(db.tasks, id, keep));
  }

  /** A new bid is the last row getBidsByTask returns for its task, and is invisible to the others. */
  lemma CreateBidAppends(db: Db, b: NewBid, taskId: nat)
    requires WellFormed(db)
    ensures var (r, id) := CreateBidF(db, b);
            BidsByTask(r, taskId) == BidsByTask(db, taskId) + (if b.taskId == taskId then [BidRow(id, b)] else [])
  {
    var (r, id) := CreateBidF(db, b);
    var keep := OfTask(taskId);
    ScanInsert(db.bids, id, keep, BidRow(id, b));
    assert BidsByTask(r, taskId) == Rows(r.bids, SelectKeys(r.bids, id + 1, keep));
    assert BidsByTask(db, taskId) == Rows(db.bids, SelectKeys(db.bids, id, keep));
  }

  /** After deleteAgent, getAllAgents no longer returns that agent. */
  lemma DeleteAgentHides(db: Db, id: nat)
    requires WellFormed(db)
    ensures forall a :: a in AllAgents(DeleteAgentF(db, id)) ==> a.id != id
  {
    var r := DeleteAgentF(db, id);
    forall a | a in AllAgents(r) ensures a.id != id {
      var i :| 0 <= i < |AllAgents(r)| && AllAgents(r)[i] == a;
      assert a.id in r.agents;
    }
  }

  /** After deleteAgent, getAllAgents still returns every other agent. */
  lemma DeleteAgentKeepsOthers(db: Db, id: nat)
    requires WellFormed(db)
    ensures forall a :: a in AllAgents(db) && a.id != id ==> a in AllAgents(DeleteAgentF(db, id))
  {
    var r := DeleteAgentF(db, id);
    var before := AllAgents(db);
    forall a | a in before && a.id != id ensures a in AllAgents(r) {
      var i :| 0 <= i < |before| && before[i] == a;
      assert a.id in r.agents && r.agents[a.id] == a;
    }
  }
}
