/**
 * Sequences of router calls from an empty store: every reachable store is consistent, so
 * the guarantees the step lemmas state under that invariant hold in every sequential run.
 */
module Runs {
  import opened Wrappers
  import opened Tables
  import opened Schema
  import opened Store
  import opened Bidding
  import opened Engine
  import opened EngineProps
  import opened CreationProps

  /** One call of the multi-agent router, with the values the clock and Math.random supply. */
  datatype Request =
    | StepCall(simulationId: nat, now: nat)
    | CreateSimulationCall(name: string, taskCount: Option<int>, draws: seq<TaskDraw>)
    | CreateAgentCall(kind: AgentKind, name: string, payloadCapacity: Option<int>)
    | DeleteAgentCall(id: nat)

  /** A creation call comes with one in-range draw per loop iteration, as Math.random gives. */
  predicate Admissible(r: Request) {
    r.CreateSimulationCall? ==>
      |r.draws| == Iterations(TaskCount(r.taskCount)) && forall i :: 0 <= i < |r.draws| ==> DrawInRange(r.draws[i])
  }

  ghost predicate AllAdmissible(rs: seq<Request>) {
    forall i :: 0 <= i < |rs| ==> Admissible(rs[i])
  }

  function Apply(db: Db, r: Request): (out: Db)
    requires WellFormed(db) && Admissible(r)
    ensures WellFormed(out)
  {
    match r
    case StepCall(simulationId, now) => StepSpec(db, simulationId, now).db
    case CreateSimulationCall(name, taskCount, draws) => CreateSimulationSpec(db, name, taskCount, draws).0
    case CreateAgentCall(kind, name, payloadCapacity) => CreateAgentF(db, AgentInput(kind, name, payloadCapacity)).0
    case DeleteAgentCall(id) => DeleteAgentF(db, id)
  }

  /** The store after the calls, one after another. */
  function Run(db: Db, rs: seq<Request>): (out: Db)
    requires WellFormed(db) && AllAdmissible(rs)
    ensures WellFormed(out)
    decreases |rs|
  {
    if rs == [] then db else Run(Apply(db, rs[0]), rs[1..])
  }

  lemma ApplyKeepsConsistent(db: Db, r: Request)
    requires Consistent(db) && Admissible(r)
    ensures Consistent(Apply(db, r))
  {
    match r
    case StepCall(simulationId, now) => StepPreservesConsistent(db, simulationId, now);
    case CreateSimulationCall(name, taskCount, draws) => CreateSimulationKeepsConsistent(db, name, taskCount, draws);
    case CreateAgentCall(kind, name, payloadCapacity) => CreateAgentKeepsConsistent(db, kind, name, payloadCapacity);
    case DeleteAgentCall(id) => DeleteAgentKeepsConsistent(db, id);
  }

  lemma {:induction false} RunKeepsConsistent(db: Db, rs: seq<Request>)
    requires Consistent(db) && AllAdmissible(rs)
    ensures Consistent(Run(db, rs))
    decreases |rs|
  {
    if rs != [] {
      assert Admissible(rs[0]);
      ApplyKeepsConsistent(db, rs[0]);
      assert AllAdmissible(rs[1..]) by {
        forall i | 0 <= i < |rs[1..]| ensures Admissible(rs[1..][i]) {
          assert rs[1..][i] == rs[i + 1];
        }
      }
      RunKeepsConsistent(Apply(db, rs[0]), rs[1..]);
    }
  }

  /**
   * In every sequential run from an empty store, between calls every task is pending or
   * completed (never left bidding or assigned), and every bid belongs to a completed task.
   */
  lemma ReachableStoresAtRest(rs: seq<Request>)
    requires AllAdmissible(rs)
    ensures var db := Run(Empty(), rs);
            && Consistent(db)
            && (forall k :: k in db.tasks ==> db.tasks[k].status == Pending || db.tasks[k].status == Completed)
            && (forall k :: k in db.bids ==> db.bids[k].taskId in db.tasks && db.tasks[db.bids[k].taskId].status == Completed)
  {
    RunKeepsConsistent(Empty(), rs);
  }

  /**
   * In every sequential run from an empty store, each simulation has as many tasks as its
   * creation loop ran for its totalTasks, its completedTasks is the number of those that are
   * completed, and so a simulation with a non-negative totalTasks never reports more
   * completed tasks than it has.
   */
  lemma ReachableCompletedWithinTotal(rs: seq<Request>)
    requires AllAdmissible(rs)
    ensures var db := Run(Empty(), rs);
            forall k :: k in db.simulations ==>
              && |TasksBySimulation(db, k)| == Iterations(db.simulations[k].totalTasks)
              && db.simulations[k].completedTasks == CompletedTally(db, k)
    ensures var db := Run(Empty(), rs);
            forall k :: k in db.simulations && 0 <= db.simulations[k].totalTasks ==>
              0 <= db.simulations[k].completedTasks <= db.simulations[k].totalTasks
  {
    var db := Run(Empty(), rs);
    RunKeepsConsistent(Empty(), rs);
    forall k | k in db.simulations
      ensures |TasksBySimulation(db, k)| == Iterations(db.simulations[k].totalTasks)
      ensures db.simulations[k].completedTasks == CompletedTally(db, k)
      ensures 0 <= db.simulations[k].totalTasks ==> 0 <= db.simulations[k].completedTasks <= db.simulations[k].totalTasks
    {
      assert Tallied(db, db.simulations[k]);
      CountSelected(db.tasks, db.nextTaskId, OfSimulation(k));
      if 0 <= db.simulations[k].totalTasks {
        CompletedWithinTotal(db, k);
      }
    }
  }

  /**
   * A negative count is accepted: the run records totalTasks -1 and gets no tasks, so for it
   * completedTasks (0) exceeds totalTasks, although the store is consistent.
   */
  lemma NegativeCountBreaksBound()
    ensures AllAdmissible([CreateSimulationCall("x", Some(-1), [])])
    ensures var db := Run(Empty(), [CreateSimulationCall("x", Some(-1), [])]);
            && Consistent(db) && 1 in db.simulations
            && db.simulations[1].totalTasks == -1 && db.simulations[1].completedTasks == 0
            && TasksBySimulation(db, 1) == []
            && db.simulations[1].completedTasks > db.simulations[1].totalTasks
  {
    var rs := [CreateSimulationCall("x", Some(-1), [])];
    assert Admissible(rs[0]);
    var db := Apply(Empty(), rs[0]);
    assert db == Empty().(simulations := map[1 := SimulationRun(1, "x", Running, -1, 0, 0, 0, None)], nextSimulationId := 2);
    assert rs[1..] == [];
    assert Run(Empty(), rs) == Run(db, []);
    RunKeepsConsistent(Empty(), rs);
    NoTasksListed(db, 1);
  }

  /**
   * The outcome of a step in a reachable store: "No pending tasks" exactly when the
   * simulation has none, "No bids received" exactly when no agent of the roster is
   * eligible, and otherwise "Step completed" for the first pending task and a winner that
   * exists among the agents and is found in the roster the step read; "No tasks available" never.
   */
  lemma ReachableStepOutcome(rs: seq<Request>, simulationId: nat, now: nat)
    requires AllAdmissible(rs)
    ensures var db := Run(Empty(), rs);
            var out := StepSpec(db, simulationId, now);
            && (out.result == NoPendingTasks <==> PendingTasks(db, simulationId) == [])
            && (PendingTasks(db, simulationId) != [] ==>
                  (out.result == NoBidsReceived <==> forall a :: a in AllAgents(db) ==> !Eligible(a)))
            && (out.result.StepCompleted? ==>
                  && out.result.taskId == PendingTasks(db, simulationId)[0].id
                  && out.result.assignedTo in db.agents
                  && FindAgent(AllAgents(db), out.result.assignedTo).Some?)
            && out.result != NoTasksAvailable
  {
    var db := Run(Empty(), rs);
    RunKeepsConsistent(Empty(), rs);
    StepIdle(db, simulationId, now);
    if PendingTasks(db, simulationId) != [] {
      StepRollback(db, simulationId, now);
      if exists a :: a in AllAgents(db) && Eligible(a) {
        StepAwards(db, simulationId, now);
      }
    }
  }

  /** Running one call more is applying it to the store the earlier calls leave. */
  lemma {:induction false} RunSnoc(db: Db, rs: seq<Request>, r: Request)
    requires WellFormed(db) && AllAdmissible(rs) && Admissible(r)
    ensures AllAdmissible(rs + [r])
    ensures Run(db, rs + [r]) == Apply(Run(db, rs), r)
    decreases |rs|
  {
    assert forall i :: 0 <= i < |rs| ==> (rs + [r])[i] == rs[i];
    assert (rs + [r])[|rs|] == r;
    if rs == [] {
      assert [r][1..] == [];
    } else {
      assert AllAdmissible(rs[1..]) by {
        forall i | 0 <= i < |rs[1..]| ensures Admissible(rs[1..][i]) {
          assert rs[1..][i] == rs[i + 1];
        }
      }
      assert (rs + [r])[1..] == rs[1..] + [r];
      RunSnoc(Apply(db, rs[0]), rs[1..], r);
    }
  }

  function ScenarioWorker(): Agent {
    Agent(1, Worker, "w", Idle, 0, 0, 100, 5000, 5000)
  }

  function ScenarioTask(priority: int, density: int): Task {
    Task(1, 1, Spray, priority, Pending, 1, 1, density, None, None)
  }

  /** The store after the set-up calls: the worker, the run with totalTasks 1, and its pending task. */
  function ScenarioDb(priority: int, density: int): Db {
    Db(map[1 := ScenarioWorker()], map[1 := ScenarioTask(priority, density)],
       map[1 := SimulationRun(1, "s", Running, 1, 0, 0, 0, None)], map[], 2, 2, 2, 1)
  }

  /** The calls that set up the stats scenario: one worker, then a simulation of one task drawn at (1, 1). */
  function ScenarioSetUpCalls(priority: int, density: int): seq<Request> {
    [CreateAgentCall(Worker, "w", Some(5000)), CreateSimulationCall("s", Some(1), [TaskDraw(priority, 1, 1, density)])]
  }

  lemma ScenarioSetUp(priority: int, density: int)
    requires 1 <= priority <= 10 && 0 <= density < 100
    ensures AllAdmissible(ScenarioSetUpCalls(priority, density))
    ensures Run(Empty(), ScenarioSetUpCalls(priority, density)) == ScenarioDb(priority, density)
  {
    var rs := ScenarioSetUpCalls(priority, density);
    assert Admissible(rs[0]) && Admissible(rs[1]);
    var db1 := Apply(Empty(), rs[0]);
    assert db1 == Empty().(agents := map[1 := ScenarioWorker()], nextAgentId := 2);
    ScenarioSimulationCreated(priority, density);
    assert rs[1..][0] == rs[1] && rs[1..][1..] == [];
    assert Run(Empty(), rs) == Run(db1, rs[1..]);
    assert Run(db1, rs[1..]) == Run(Apply(db1, rs[1]), []);
  }

  /** The creation call on the store holding only the worker. */
  lemma ScenarioSimulationCreated(priority: int, density: int)
    requires 1 <= priority <= 10 && 0 <= density < 100
    ensures var db1 := Empty().(agents := map[1 := ScenarioWorker()], nextAgentId := 2);
            CreateSimulationSpec(db1, "s", Some(1), [TaskDraw(priority, 1, 1, density)]).0 == ScenarioDb(priority, density)
  {
    var db1 := Empty().(agents := map[1 := ScenarioWorker()], nextAgentId := 2);
    var draws := [TaskDraw(priority, 1, 1, density)];
    var created := db1.(simulations := map[1 := SimulationRun(1, "s", Running, 1, 0, 0, 0, None)], nextSimulationId := 2);
    assert CreateSimulationF(db1, NewSimulation("s", None, Some(1), None, None, None, None)) == (created, 1);
    assert draws[..0] == [];
    assert GenerateTasksDb(created, 1, draws) == CreateTaskF(created, SprayTask(1, draws[0])).0;
    assert TaskRow(1, SprayTask(1, draws[0])) == ScenarioTask(priority, density);
  }

  /** The worker at the origin and the task at (1, 1): squared distance 2, so no energy is spent. */
  lemma ScenarioEnergy(priority: int, density: int)
    ensures EnergyCost(ScenarioWorker(), ScenarioTask(priority, density)) == 0
  {
    var w := ScenarioWorker();
    var t := ScenarioTask(priority, density);
    assert w.positionX - t.areaX == -1 && w.positionY - t.areaY == -1;
    assert SquaredDistance(w, t) == 2;
    NoEnergyWhenNear(w, t);
  }

  /** The step on the scenario's store awards the task to the worker and credits the run with no energy. */
  lemma ScenarioStep(priority: int, density: int, now: nat)
    requires Consistent(ScenarioDb(priority, density))
    ensures var out := StepSpec(ScenarioDb(priority, density), 1, now);
            && out.result == StepCompleted(1, 1)
            && 1 in out.db.simulations
            && out.db.simulations[1].completedTasks == 1
            && out.db.simulations[1].totalEnergyUsed == 0
  {
    var db := ScenarioDb(priority, density);
    var w := ScenarioWorker();
    var t := ScenarioTask(priority, density);
    assert t in PendingTasks(db, 1);
    assert w in AllAgents(db) && Eligible(w);
    StepAwards(db, 1, now);
    assert PendingTasks(db, 1)[0] == t;
    assert Winner(db, 1) == w;
    ScenarioEnergy(priority, density);
  }

  /**
   * The stats scenario of the router's tests: one worker at the origin, a simulation of one
   * task, one step. When the task is drawn at (1, 1) the step completes it, yet
   * totalEnergyUsed stays 0, because half the floor distance is 0 there.
   */
  lemma CompletedStepMayUseNoEnergy(now: nat, priority: int, density: int)
    requires 1 <= priority <= 10 && 0 <= density < 100
    ensures var rs := ScenarioSetUpCalls(priority, density) + [StepCall(1, now)];
            && AllAdmissible(rs)
            && Run(Empty(), rs) == StepSpec(ScenarioDb(priority, density), 1, now).db
            && StepSpec(ScenarioDb(priority, density), 1, now).result == StepCompleted(1, 1)
            && 1 in Run(Empty(), rs).simulations
            && Run(Empty(), rs).simulations[1].completedTasks == 1
            && Run(Empty(), rs).simulations[1].totalEnergyUsed == 0
  {
    var setUp := ScenarioSetUpCalls(priority, density);
    ScenarioSetUp(priority, density);
    RunKeepsConsistent(Empty(), setUp);
    RunSnoc(Empty(), setUp, StepCall(1, now));
    ScenarioStep(priority, density, now);
  }
}
