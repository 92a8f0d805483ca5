/**
 * What `simulations.create` and `agents.create` leave in the store, and that they, like
 * `deleteAgent`, keep the store invariant.
 */
module CreationProps {
  import opened Wrappers
  import opened Schema
  import opened Tables
  import opened Store
  import opened StoreScans
  import opened Engine
  import opened EngineProps

  // ---------------------------------------------------------------- simulations.create

  /** The task the generator writes for one draw, column by column. */
  function GeneratedTask(id: nat, simulationId: nat, d: TaskDraw): Task {
    Task(id, simulationId, Spray, d.priority, Pending, d.areaX, d.areaY, d.infestationDensity, None, None)
  }

  /** The rows the generation loop writes, numbered from `firstId`. */
  function GeneratedTasks(firstId: nat, simulationId: nat, draws: seq<TaskDraw>): seq<Task> {
    seq(|draws|, i requires 0 <= i < |draws| => GeneratedTask(firstId + i, simulationId, draws[i]))
  }

  lemma SprayTaskRow(id: nat, simulationId: nat, d: TaskDraw)
    ensures TaskRow(id, SprayTask(simulationId, d)) == GeneratedTask(id, simulationId, d)
  {
  }

  /** The generation loop adds exactly the generated rows under the next task ids, and nothing else. */
  lemma {:induction false} GenerateTasksEffect(db: Db, simulationId: nat, draws: seq<TaskDraw>)
    requires WellFormed(db)
    ensures var r := GenerateTasksDb(db, simulationId, draws);
            r == db.(tasks := r.tasks, nextTaskId := db.nextTaskId + |draws|)
    ensures var r := GenerateTasksDb(db, simulationId, draws);
            forall k :: k in db.tasks ==> k in r.tasks && r.tasks[k] == db.tasks[k]
    ensures var r := GenerateTasksDb(db, simulationId, draws);
            forall k :: k in r.tasks && k !in db.tasks ==>
              db.nextTaskId <= k < db.nextTaskId + |draws| && r.tasks[k] == GeneratedTask(k, simulationId, draws[k - db.nextTaskId])
    decreases |draws|
  {
    if draws != [] {
      var init := draws[..|draws| - 1];
      GenerateTasksEffect(db, simulationId, init);
      var d := GenerateTasksDb(db, simulationId, init);
      var last := draws[|draws| - 1];
      SprayTaskRow(d.nextTaskId, simulationId, last);
      var r := GenerateTasksDb(db, simulationId, draws);
      assert r.tasks == d.tasks[d.nextTaskId := GeneratedTask(d.nextTaskId, simulationId, last)];
      forall k | k in r.tasks && k !in db.tasks
        ensures db.nextTaskId <= k < db.nextTaskId + |draws| && r.tasks[k] == GeneratedTask(k, simulationId, draws[k - db.nextTaskId])
      {
        if k != d.nextTaskId {
          assert k in d.tasks && init[k - db.nextTaskId] == draws[k - db.nextTaskId];
        }
      }
    }
  }

  /** One draw more: its task is listed last. */
  lemma GeneratedStep(d: Db, simulationId: nat, draws: seq<TaskDraw>, before: seq<Task>, firstId: nat)
    requires WellFormed(d) && draws != []
    requires TasksBySimulation(d, simulationId) == before + GeneratedTasks(firstId, simulationId, draws[..|draws| - 1])
    requires d.nextTaskId == firstId + |draws| - 1
    ensures TasksBySimulation(CreateTaskF(d, SprayTask(simulationId, draws[|draws| - 1])).0, simulationId)
            == before + GeneratedTasks(firstId, simulationId, draws)
  {
    var last := draws[|draws| - 1];
    var t := SprayTask(simulationId, last);
    var g := GeneratedTask(d.nextTaskId, simulationId, last);
    var earlier := GeneratedTasks(firstId, simulationId, draws[..|draws| - 1]);
    CreateTaskAppends(d, t, simulationId);
    SprayTaskRow(d.nextTaskId, simulationId, last);
    assert t.simulationId == simulationId;
    assert TasksBySimulation(CreateTaskF(d, t).0, simulationId) == (before + earlier) + [g];
    assert GeneratedTasks(firstId, simulationId, draws) == earlier + [g];
    assert (before + earlier) + [g] == before + (earlier + [g]);
  }

  /** getTasksBySimulation after the loop: the earlier tasks of the simulation, then the generated ones in order. */
  lemma {:induction false} GenerateTasksListed(db: Db, simulationId: nat, draws: seq<TaskDraw>)
    requires WellFormed(db)
    ensures TasksBySimulation(GenerateTasksDb(db, simulationId, draws), simulationId)
            == TasksBySimulation(db, simulationId) + GeneratedTasks(db.nextTaskId, simulationId, draws)
    decreases |draws|
  {
    if draws == [] {
      assert GeneratedTasks(db.nextTaskId, simulationId, draws) == [];
    } else {
      var init := draws[..|draws| - 1];
      GenerateTasksListed(db, simulationId, init);
      GenerateTasksEffect(db, simulationId, init);
      GeneratedStep(GenerateTasksDb(db, simulationId, init), simulationId, draws, TasksBySimulation(db, simulationId), db.nextTaskId);
    }
  }

  /** A simulation id no task refers to has no tasks listed. */
  lemma NoTasksListed(db: Db, simulationId: nat)
    requires WellFormed(db)
    ensures (forall k :: k in db.tasks ==> db.tasks[k].simulationId != simulationId) ==> TasksBySimulation(db, simulationId) == []
  {
    var ts := TasksBySimulation(db, simulationId);
    if ts != [] {
      assert ts[0].id in db.tasks && db.tasks[ts[0].id].simulationId == simulationId;
    }
  }

  /**
   * `simulations.create(name, n)`: a fresh running simulation with totalTasks n (10 when the
   * count is omitted) and zero counters, and exactly max(n, 0) tasks for it, one per draw,
   * spray and pending, from the draws' values. Agents, bids and earlier tasks are untouched.
   */
  lemma CreateSimulationEffect(db: Db, name: string, taskCount: Option<int>, draws: seq<TaskDraw>)
    requires Consistent(db) && |draws| == Iterations(TaskCount(taskCount))
    ensures var (out, id) := CreateSimulationSpec(db, name, taskCount, draws);
            && id == db.nextSimulationId && id !in db.simulations
            && out.simulations == db.simulations[id := SimulationRun(id, name, Running, TaskCount(taskCount), 0, 0, 0, None)]
            && out.agents == db.agents && out.bids == db.bids
            && out.nextAgentId == db.nextAgentId && out.nextBidId == db.nextBidId
            && out.nextTaskId == db.nextTaskId + Iterations(TaskCount(taskCount))
            && (forall k :: k in db.tasks ==> k in out.tasks && out.tasks[k] == db.tasks[k])
            && TasksBySimulation(out, id) == GeneratedTasks(db.nextTaskId, id, draws)
            && |TasksBySimulation(out, id)| == Iterations(TaskCount(taskCount))
  {
    var (created, id) := CreateSimulationF(db, NewSimulation(name, None, Some(TaskCount(taskCount)), None, None, None, None));
    NoTasksListed(created, id);
    GenerateTasksListed(created, id, draws);
    GenerateTasksEffect(created, id, draws);
  }

  /** A creation that omits the count records totalTasks 10 and creates ten tasks. */
  lemma OmittedCountCreatesTen(db: Db, name: string, draws: seq<TaskDraw>)
    requires Consistent(db) && |draws| == 10
    ensures var (out, id) := CreateSimulationSpec(db, name, None, draws);
            && id in out.simulations && out.simulations[id].totalTasks == 10
            && |TasksBySimulation(out, id)| == 10
  {
    CreateSimulationEffect(db, name, None, draws);
  }

  /** Every generated task of a simulation is a pending spray task inside the generator's ranges. */
  lemma GeneratedTasksInRange(firstId: nat, simulationId: nat, draws: seq<TaskDraw>)
    requires forall i :: 0 <= i < |draws| ==> DrawInRange(draws[i])
    ensures forall t :: t in GeneratedTasks(firstId, simulationId, draws) ==>
              && t.kind == Spray && t.status == Pending && t.simulationId == simulationId
              && t.assignedAgentId.None? && t.completedAt.None?
              && 1 <= t.priority <= 10 && 0 <= t.areaX <= 99 && 0 <= t.areaY <= 99 && 0 <= t.infestationDensity <= 99
  {
  }

  lemma CreateSimulationKeepsConsistent(db: Db, name: string, taskCount: Option<int>, draws: seq<TaskDraw>)
    requires Consistent(db) && |draws| == Iterations(TaskCount(taskCount))
    requires forall i :: 0 <= i < |draws| ==> DrawInRange(draws[i])
    ensures Consistent(CreateSimulationSpec(db, name, taskCount, draws).0)
  {
    var row := NewSimulation(name, None, Some(TaskCount(taskCount)), None, None, None, None);
    var (created, id) := CreateSimulationF(db, row);
    var out := GenerateTasksDb(created, id, draws);
    assert CreateSimulationSpec(db, name, taskCount, draws).0 == out;
    SimulationAddedConsistent(db, created, id, SimulationRow(id, row));
    GenerateTasksEffect(created, id, draws);
    GeneratedConsistent(created, out, id, draws);
    CreateSimulationEffect(db, name, taskCount, draws);
    CreatedTallies(db, created, id, draws, SimulationRun(id, name, Running, TaskCount(taskCount), 0, 0, 0, None));
  }

  /** A new simulation row with zero counters keeps every row consistent. */
  lemma SimulationAddedConsistent(db: Db, created: Db, id: nat, sim: SimulationRun)
    requires RowsConsistent(db) && WellFormed(created) && CountersInRange(sim)
    requires created == db.(simulations := db.simulations[id := sim], nextSimulationId := created.nextSimulationId)
    ensures RowsConsistent(created)
  {
  }

  /** The generated tasks, all for a simulation that exists, keep every row consistent. */
  lemma GeneratedConsistent(db: Db, out: Db, id: nat, draws: seq<TaskDraw>)
    requires RowsConsistent(db) && WellFormed(out) && id in db.simulations
    requires forall i :: 0 <= i < |draws| ==> DrawInRange(draws[i])
    requires out == db.(tasks := out.tasks, nextTaskId := db.nextTaskId + |draws|)
    requires forall k :: k in db.tasks ==> k in out.tasks && out.tasks[k] == db.tasks[k]
    requires forall k :: k in out.tasks && k !in db.tasks ==>
               db.nextTaskId <= k < db.nextTaskId + |draws| && out.tasks[k] == GeneratedTask(k, id, draws[k - db.nextTaskId])
    ensures RowsConsistent(out)
  {
    NewTasksConsistent(db, out, id, draws);
  }

  lemma NewTasksConsistent(db: Db, out: Db, id: nat, draws: seq<TaskDraw>)
    requires RowsConsistent(db)
    requires forall i :: 0 <= i < |draws| ==> DrawInRange(draws[i])
    requires id in out.simulations && db.simulations.Keys <= out.simulations.Keys
    requires forall k :: k in db.tasks ==> k in out.tasks && out.tasks[k] == db.tasks[k]
    requires forall k :: k in out.tasks && k !in db.tasks ==>
               db.nextTaskId <= k < db.nextTaskId + |draws| && out.tasks[k] == GeneratedTask(k, id, draws[k - db.nextTaskId])
    ensures forall k :: k in out.tasks ==>
              out.tasks[k].simulationId in out.simulations && TaskAtRest(out.tasks[k]) && TaskInRange(out.tasks[k])
  {
    forall k | k in out.tasks
      ensures out.tasks[k].simulationId in out.simulations && TaskAtRest(out.tasks[k]) && TaskInRange(out.tasks[k])
    {
      if k !in db.tasks {
        assert DrawInRange(draws[k - db.nextTaskId]);
      }
    }
  }

  /**
   * After the creation, the new simulation has exactly its generated tasks, none completed,
   * and every earlier simulation still has the tasks it had. `created` is the store after
   * the simulation insert, before the generation loop.
   */
  lemma CreatedTallies(db: Db, created: Db, id: nat, draws: seq<TaskDraw>, sim: SimulationRun)
    requires Consistent(db) && WellFormed(created)
    requires created.tasks == db.tasks && created.nextTaskId == db.nextTaskId
    requires id == db.nextSimulationId && sim.id == id && sim.completedTasks == 0
    requires created.simulations == db.simulations[id := sim]
    requires |TasksBySimulation(GenerateTasksDb(created, id, draws), id)| == Iterations(sim.totalTasks)
    ensures var out := GenerateTasksDb(created, id, draws);
            forall k :: k in out.simulations ==> Tallied(out, out.simulations[k])
  {
    var out := GenerateTasksDb(created, id, draws);
    GenerateTasksEffect(created, id, draws);
    assert out.simulations == created.simulations;
    forall k | k in out.simulations
      ensures Tallied(out, out.simulations[k])
    {
      if k == id {
        forall j | j in created.tasks
          ensures created.tasks[j].simulationId != id
        {
          assert db.tasks[j].simulationId in db.simulations;
        }
        NewSimulationTallied(created, id, draws, sim);
      } else {
        assert Tallied(db, db.simulations[k]);
        GeneratedScanKept(created, id, draws, OfSimulation(k));
        GeneratedScanKept(created, id, draws, CompletedOf(k));
      }
    }
  }

  /** The new simulation lists its generated tasks, and none of its tasks is completed. */
  lemma NewSimulationTallied(created: Db, id: nat, draws: seq<TaskDraw>, sim: SimulationRun)
    requires WellFormed(created)
    requires sim.id == id && sim.completedTasks == 0
    requires forall k :: k in created.tasks ==> created.tasks[k].simulationId != id
    requires |TasksBySimulation(GenerateTasksDb(created, id, draws), id)| == Iterations(sim.totalTasks)
    ensures Tallied(GenerateTasksDb(created, id, draws), sim)
  {
    var out := GenerateTasksDb(created, id, draws);
    GenerateTasksEffect(created, id, draws);
    CountSelected(out.tasks, out.nextTaskId, OfSimulation(id));
    forall j | j in out.tasks
      ensures !CompletedOf(id)(out.tasks[j])
    {
      if j in created.tasks {
        assert created.tasks[j].simulationId != id;
      }
    }
    CountNone(out.tasks, out.nextTaskId, CompletedOf(id));
  }

  /** A scan that never selects a task of the new simulation sees the same keys after the generation loop. */
  lemma GeneratedScanKept(created: Db, id: nat, draws: seq<TaskDraw>, keep: Task -> bool)
    requires WellFormed(created)
    requires forall t :: keep(t) ==> t.simulationId != id
    ensures var out := GenerateTasksDb(created, id, draws);
            Count(created.tasks, created.nextTaskId, keep) == Count(out.tasks, out.nextTaskId, keep)
  {
    var out := GenerateTasksDb(created, id, draws);
    GenerateTasksEffect(created, id, draws);
    forall j: nat | j < created.nextTaskId
      ensures j in created.tasks && keep(created.tasks[j]) <==> j in out.tasks && keep(out.tasks[j])
    {
    }
    forall j: nat | created.nextTaskId <= j < out.nextTaskId && j in out.tasks
      ensures !keep(out.tasks[j])
    {
      assert j !in created.tasks;
    }
    CountAgree(created.tasks, created.nextTaskId, keep, out.tasks, out.nextTaskId, keep);
  }

  // ---------------------------------------------------------------- agents.create, deleteAgent

  /**
   * The agent row `agents.create` writes: idle at (0, 0) with full energy; capacity the given
   * value when it is truthy, otherwise 5000 for a worker and 0 for a scout; a worker loaded
   * with 5000, a scout with 0.
   */
  lemma CreatedAgent(db: Db, kind: AgentKind, name: string, payloadCapacity: Option<int>)
    requires WellFormed(db)
    ensures var (out, id) := CreateAgentF(db, AgentInput(kind, name, payloadCapacity));
            var capacity := if payloadCapacity.Some? && payloadCapacity.value != 0 then payloadCapacity.value
                            else if kind == Worker then 5000 else 0;
            && id == db.nextAgentId && id !in db.agents
            && out.agents == db.agents[id := Agent(id, kind, name, Idle, 0, 0, 100, capacity, if kind == Worker then 5000 else 0)]
  {
  }

  /** The creation defaults do not keep the load within the capacity: a worker given capacity 100 carries 5000. */
  lemma LoadMayExceedCapacity()
    ensures var a := AgentRow(1, AgentInput(Worker, "w", Some(100)));
            a.payloadCapacity == 100 && a.currentPayload == 5000
  {
  }

  lemma CreateAgentKeepsConsistent(db: Db, kind: AgentKind, name: string, payloadCapacity: Option<int>)
    requires Consistent(db)
    ensures Consistent(CreateAgentF(db, AgentInput(kind, name, payloadCapacity)).0)
  {
    TalliesKept(db, CreateAgentF(db, AgentInput(kind, name, payloadCapacity)).0);
  }

  lemma DeleteAgentKeepsConsistent(db: Db, id: nat)
    requires Consistent(db)
    ensures Consistent(DeleteAgentF(db, id))
  {
    TalliesKept(db, DeleteAgentF(db, id));
  }

  /** An operation that leaves the tasks and simulations as they were keeps every simulation tallied. */
  lemma TalliesKept(db: Db, out: Db)
    requires Consistent(db)
    requires out.tasks == db.tasks && out.nextTaskId == db.nextTaskId && out.simulations == db.simulations
    ensures forall k :: k in out.simulations ==> Tallied(out, out.simulations[k])
  {
    forall k | k in out.simulations
      ensures Tallied(out, out.simulations[k])
    {
      assert Tallied(db, db.simulations[k]);
    }
  }
}
