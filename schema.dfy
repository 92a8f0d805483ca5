/**
 * Record shapes of the four multi-agent tables (agents, tasks, simulationRuns, taskBids),
 * their enumerations, and the column defaults an insert falls back to.
 *
 * Every id is the table's auto-incremented primary key. The audit timestamps (agent
 * createdAt/updatedAt, task createdAt, simulation startTime, bid timestamp) are not kept;
 * the two timestamps the engine reads or writes are: a task's completedAt and a
 * simulation's endTime, both nullable, as an abstract clock value.
 */
module Schema {
  import opened Wrappers

  datatype AgentKind = Scout | Worker
  datatype AgentStatus = Idle | Moving | Working | Charging
  datatype TaskKind = Spray | Inspect
  datatype TaskStatus = Pending | Bidding | Assigned | InProgress | Completed
  /** `RunCompleted` is the enumeration value `completed` of the simulationRuns table. */
  datatype SimulationStatus = Running | Paused | RunCompleted

  datatype Agent = Agent(
    id: nat,
    kind: AgentKind,
    name: string,
    status: AgentStatus,
    positionX: int,
    positionY: int,
    energyLevel: int,      // 0-100 by intent; the column itself is a plain integer
    payloadCapacity: int,  // ml
    currentPayload: int)   // ml

  datatype Task = Task(
    id: nat,
    simulationId: nat,
    kind: TaskKind,
    priority: int,
    status: TaskStatus,
    areaX: int,
    areaY: int,
    infestationDensity: int,
    assignedAgentId: Option<nat>,
    completedAt: Option<nat>)

  datatype SimulationRun = SimulationRun(
    id: nat,
    name: string,
    status: SimulationStatus,
    totalTasks: int,
    completedTasks: int,
    totalEnergyUsed: int,
    totalPesticideUsed: int,  // ml
    endTime: Option<nat>)

  /** One agent's offer for one task; lower `bidValue` is better. */
  datatype TaskBid = TaskBid(id: nat, taskId: nat, agentId: nat, bidValue: int)

  /*
   * Insert shapes. A column without a default is a plain field; a column with a default is
   * an Option whose None means "not supplied"; a nullable column is an Option whose None is null.
   */
  datatype NewAgent = NewAgent(
    kind: AgentKind,
    name: string,
    status: Option<AgentStatus>,
    positionX: Option<int>,
    positionY: Option<int>,
    energyLevel: Option<int>,
    payloadCapacity: Option<int>,
    currentPayload: Option<int>)

  datatype NewTask = NewTask(
    simulationId: nat,
    kind: TaskKind,
    priority: Option<int>,
    status: Option<TaskStatus>,
    areaX: int,
    areaY: int,
    infestationDensity: Option<int>,
    assignedAgentId: Option<nat>,
    completedAt: Option<nat>)

  datatype NewSimulation = NewSimulation(
    name: string,
    status: Option<SimulationStatus>,
    totalTasks: Option<int>,
    completedTasks: Option<int>,
    totalEnergyUsed: Option<int>,
    totalPesticideUsed: Option<int>,
    endTime: Option<nat>)

  datatype NewBid = NewBid(taskId: nat, agentId: nat, bidValue: int)

  /** The agents row an insert produces: supplied columns kept, the others at their defaults. */
  function AgentRow(id: nat, a: NewAgent): (r: Agent)
    ensures r.id == id && r.kind == a.kind && r.name == a.name
    ensures a.status.None? ==> r.status == Idle
    ensures a.positionX.None? ==> r.positionX == 0
    ensures a.positionY.None? ==> r.positionY == 0
    ensures a.energyLevel.None? ==> r.energyLevel == 100
    ensures a.payloadCapacity.None? ==> r.payloadCapacity == 0
    ensures a.currentPayload.None? ==> r.currentPayload == 0
    ensures a.status.Some? ==> r.status == a.status.value
    ensures a.positionX.Some? ==> r.positionX == a.positionX.value
    ensures a.positionY.Some? ==> r.positionY == a.positionY.value
    ensures a.energyLevel.Some? ==> r.energyLevel == a.energyLevel.value
    ensures a.payloadCapacity.Some? ==> r.payloadCapacity == a.payloadCapacity.value
    ensures a.currentPayload.Some? ==> r.currentPayload == a.currentPayload.value
  {
    Agent(id, a.kind, a.name, a.status.GetOr(Idle), a.positionX.GetOr(0), a.positionY.GetOr(0),
          a.energyLevel.GetOr(100), a.payloadCapacity.GetOr(0), a.currentPayload.GetOr(0))
  }

  /** The tasks row an insert produces. */
  function TaskRow(id: nat, t: NewTask): (r: Task)
    ensures r.id == id && r.simulationId == t.simulationId && r.kind == t.kind
    ensures r.areaX == t.areaX && r.areaY == t.areaY
    ensures r.assignedAgentId == t.assignedAgentId && r.completedAt == t.completedAt
    ensures t.priority.None? ==> r.priority == 1
    ensures t.status.None? ==> r.status == Pending
    ensures t.infestationDensity.None? ==> r.infestationDensity == 0
    ensures t.priority.Some? ==> r.priority == t.priority.value
    ensures t.status.Some? ==> r.status == t.status.value
    ensures t.infestationDensity.Some? ==> r.infestationDensity == t.infestationDensity.value
  {
    Task(id, t.simulationId, t.kind, t.priority.GetOr(1), t.status.GetOr(Pending), t.areaX, t.areaY,
         t.infestationDensity.GetOr(0), t.assignedAgentId, t.completedAt)
  }

  /** The simulationRuns row an insert produces. */
  function SimulationRow(id: nat, s: NewSimulation): (r: SimulationRun)
    ensures r.id == id && r.name == s.name && r.endTime == s.endTime
    ensures s.status.None? ==> r.status == Running
    ensures s.totalTasks.None? ==> r.totalTasks == 0
    ensures s.completedTasks.None? ==> r.completedTasks == 0
    ensures s.totalEnergyUsed.None? ==> r.totalEnergyUsed == 0
    ensures s.totalPesticideUsed.None? ==> r.totalPesticideUsed == 0
    ensures s.status.Some? ==> r.status == s.status.value
    ensures s.totalTasks.Some? ==> r.totalTasks == s.totalTasks.value
    ensures s.completedTasks.Some? ==> r.completedTasks == s.completedTasks.value
    ensures s.totalEnergyUsed.Some? ==> r.totalEnergyUsed == s.totalEnergyUsed.value
    ensures s.totalPesticideUsed.Some? ==> r.totalPesticideUsed == s.totalPesticideUsed.value
  {
    SimulationRun(id, s.name, s.status.GetOr(Running), s.totalTasks.GetOr(0), s.completedTasks.GetOr(0),
                  s.totalEnergyUsed.GetOr(0), s.totalPesticideUsed.GetOr(0), s.endTime)
  }

  /** The taskBids row an insert produces (every column is required). */
  function BidRow(id: nat, b: NewBid): (r: TaskBid)
    ensures r.id == id && r.taskId == b.taskId && r.agentId == b.agentId && r.bidValue == b.bidValue
  {
    TaskBid(id, b.taskId, b.agentId, b.bidValue)
  }

  /** An agent insert that names only the required columns gets the schema's defaults. */
  lemma AgentDefaults(id: nat, kind: AgentKind, name: string)
    ensures AgentRow(id, NewAgent(kind, name, None, None, None, None, None, None))
         == Agent(id, kind, name, Idle, 0, 0, 100, 0, 0)
  {
  }

  /** A task insert that names only the required columns is pending, priority 1, density 0, unassigned. */
  lemma TaskDefaults(id: nat, simulationId: nat, kind: TaskKind, x: int, y: int)
    ensures TaskRow(id, NewTask(simulationId, kind, None, None, x, y, None, None, None))
         == Task(id, simulationId, kind, 1, Pending, x, y, 0, None, None)
  {
  }

  /** A simulation insert that names only its name is running with all counters at zero and no end time. */
  lemma SimulationDefaults(id: nat, name: string)
    ensures SimulationRow(id, NewSimulation(name, None, None, None, None, None, None))
         == SimulationRun(id, name, Running, 0, 0, 0, 0, None)
  {
  }
}
