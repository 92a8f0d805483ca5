/**
 * What the engine guarantees when its operations run one after another: a store
 * invariant that every operation keeps, and the outcome of a step in each of its cases.
 */
module EngineProps {
  import opened Wrappers
  import opened Schema
  import opened Tables
  import opened Store
  import opened StoreScans
  import opened Bidding
  import opened Engine

  // ---------------------------------------------------------------- the bidding loop

  /** One more roster entry adds at most one bid, at the end, numbered after the others. */
  lemma SolicitSnoc(roster: seq<Agent>, task: Task, firstId: nat)
    requires roster != []
    ensures var init := roster[..|roster| - 1];
            var a := roster[|roster| - 1];
            Eligible(a) ==>
              Solicit(roster, task, firstId)
                == Solicit(init, task, firstId) + [TaskBid(firstId + |Solicit(init, task, firstId)|, task.id, a.id, BidValue(a, task))]
    ensures var init := roster[..|roster| - 1];
            !Eligible(roster[|roster| - 1]) ==> Solicit(roster, task, firstId) == Solicit(init, task, firstId)
  {
    var init := roster[..|roster| - 1];
    var a := roster[|roster| - 1];
    var before := Bidders(init);
    assert Bidders(roster) == before + (if Eligible(a) then [a] else []);
    var lhs, prefix := Solicit(roster, task, firstId), Solicit(init, task, firstId);
    if Eligible(a) {
      var rhs := prefix + [TaskBid(firstId + |prefix|, task.id, a.id, BidValue(a, task))];
      forall i | 0 <= i < |lhs| ensures lhs[i] == rhs[i] {
        if i < |before| {
          assert Bidders(roster)[i] == before[i];
        } else {
          assert Bidders(roster)[i] == a;
        }
      }
      assert lhs == rhs;
    } else {
      forall i | 0 <= i < |lhs| ensures lhs[i] == prefix[i] {
        assert Bidders(roster)[i] == before[i];
      }
      assert lhs == prefix;
    }
  }

  ghost predicate NoBidFor(db: Db, taskId: nat) {
    forall k :: k in db.bids ==> db.bids[k].taskId != taskId
  }

  /** A task nobody has bid on has an empty bid list. */
  lemma NoBidsListed(db: Db, taskId: nat)
    requires WellFormed(db)
    ensures NoBidFor(db, taskId) ==> BidsByTask(db, taskId) == []
  {
    var bs := BidsByTask(db, taskId);
    if bs != [] {
      assert bs[0].id in db.bids && db.bids[bs[0].id].taskId == taskId;
    }
  }

  /**
   * The bidding loop writes exactly the bids Solicit computes, under the next free ids, and
   * nothing else.
   */
  lemma {:induction false} SolicitDbEffect(db: Db, roster: seq<Agent>, task: Task)
    requires WellFormed(db)
    ensures var r := SolicitDb(db, roster, task);
            r == db.(bids := r.bids, nextBidId := r.nextBidId)
    ensures SolicitDb(db, roster, task).nextBidId == db.nextBidId + |Solicit(roster, task, db.nextBidId)|
    ensures var r := SolicitDb(db, roster, task);
            forall k :: k in db.bids ==> k in r.bids && r.bids[k] == db.bids[k]
    ensures var r := SolicitDb(db, roster, task);
            forall k :: k in r.bids ==> k in db.bids || db.nextBidId <= k < r.nextBidId
    ensures var r := SolicitDb(db, roster, task);
            var offers := Solicit(roster, task, db.nextBidId);
            forall i :: 0 <= i < |offers| ==> offers[i].id in r.bids && r.bids[offers[i].id] == offers[i]
    ensures Solicit(roster, task, db.nextBidId) == [] ==> SolicitDb(db, roster, task) == db
    decreases |roster|
  {
    if roster != [] {
      var init := roster[..|roster| - 1];
      var a := roster[|roster| - 1];
      SolicitDbEffect(db, init, task);
      SolicitSnoc(roster, task, db.nextBidId);
      var d := SolicitDb(db, init, task);
      var prev := Solicit(init, task, db.nextBidId);
      if Eligible(a) {
        var nb := NewBid(task.id, a.id, BidValue(a, task));
        var (r, id) := CreateBidF(d, nb);
        assert r == SolicitDb(db, roster, task);
        assert id == db.nextBidId + |prev|;
        assert BidRow(id, nb) == TaskBid(id, task.id, a.id, BidValue(a, task));
        OffersStep(d, roster, task, db.nextBidId);
      } else {
        assert SolicitDb(db, roster, task) == d;
        assert Solicit(roster, task, db.nextBidId) == prev;
      }
    }
  }

  /** One eligible agent more: the earlier bids stay, and its bid is stored under the next id. */
  lemma OffersStep(d: Db, roster: seq<Agent>, task: Task, firstId: nat)
    requires WellFormed(d) && roster != [] && Eligible(roster[|roster| - 1])
    requires var prev := Solicit(roster[..|roster| - 1], task, firstId);
             && d.nextBidId == firstId + |prev|
             && forall i :: 0 <= i < |prev| ==> prev[i].id in d.bids && d.bids[prev[i].id] == prev[i]
    ensures var a := roster[|roster| - 1];
            var r := CreateBidF(d, NewBid(task.id, a.id, BidValue(a, task))).0;
            var offers := Solicit(roster, task, firstId);
            forall i :: 0 <= i < |offers| ==> offers[i].id in r.bids && r.bids[offers[i].id] == offers[i]
  {
    var a := roster[|roster| - 1];
    var nb := NewBid(task.id, a.id, BidValue(a, task));
    var (r, id) := CreateBidF(d, nb);
    var prev := Solicit(roster[..|roster| - 1], task, firstId);
    var offers := Solicit(roster, task, firstId);
    SolicitSnoc(roster, task, firstId);
    assert offers == prev + [BidRow(id, nb)];
    forall i | 0 <= i < |offers| ensures offers[i].id in r.bids && r.bids[offers[i].id] == offers[i] {
      if i < |prev| {
        assert offers[i] == prev[i] && prev[i].id in d.bids;
      }
    }
  }

  /** One eligible agent more: its bid is listed last. */
  lemma ListedStep(d: Db, roster: seq<Agent>, task: Task, firstId: nat)
    requires WellFormed(d) && roster != [] && Eligible(roster[|roster| - 1])
    requires BidsByTask(d, task.id) == Solicit(roster[..|roster| - 1], task, firstId)
    requires d.nextBidId == firstId + |Solicit(roster[..|roster| - 1], task, firstId)|
    ensures var a := roster[|roster| - 1];
            BidsByTask(CreateBidF(d, NewBid(task.id, a.id, BidValue(a, task))).0, task.id) == Solicit(roster, task, firstId)
  {
    var a := roster[|roster| - 1];
    SolicitSnoc(roster, task, firstId);
    CreateBidAppends(d, NewBid(task.id, a.id, BidValue(a, task)), task.id);
  }

  /** Every bid the loop adds is for the announced task. */
  lemma {:induction false} SolicitDbNewBids(db: Db, roster: seq<Agent>, task: Task)
    ensures var r := SolicitDb(db, roster, task);
            forall k :: k in r.bids && k !in db.bids ==> r.bids[k].taskId == task.id
    decreases |roster|
  {
    if roster != [] {
      SolicitDbNewBids(db, roster[..|roster| - 1], task);
    }
  }

  /** When the task had no bids before, getBidsByTask after the loop lists exactly Solicit's bids. */
  lemma {:induction false} SolicitDbListed(db: Db, roster: seq<Agent>, task: Task)
    requires WellFormed(db) && NoBidFor(db, task.id)
    ensures BidsByTask(SolicitDb(db, roster, task), task.id) == Solicit(roster, task, db.nextBidId)
    decreases |roster|
  {
    if roster == [] {
      NoBidsListed(db, task.id);
    } else {
      var init := roster[..|roster| - 1];
      SolicitDbListed(db, init, task);
      SolicitDbEffect(db, init, task);
      SolicitSnoc(roster, task, db.nextBidId);
      if Eligible(roster[|roster| - 1]) {
        ListedStep(SolicitDb(db, init, task), roster, task, db.nextBidId);
      }
    }
  }

  // ---------------------------------------------------------------- the store invariant

  /**
   * Between steps a task is either pending (unassigned, not completed) or completed
   * (assigned, with a completion time): `bidding` and `assigned` only occur inside a step.
   */
  ghost predicate TaskAtRest(t: Task) {
    || (t.status == Pending && t.assignedAgentId.None? && t.completedAt.None?)
    || (t.status == Completed && t.assignedAgentId.Some? && t.completedAt.Some?)
  }

  /** The ranges the generator draws from. */
  ghost predicate TaskInRange(t: Task) {
    && t.kind == Spray
    && 1 <= t.priority <= 10 && 0 <= t.areaX < 100 && 0 <= t.areaY < 100
    && 0 <= t.infestationDensity < 100
  }

  /** Energy is a percentage, the payload never negative. */
  ghost predicate AgentInRange(a: Agent) {
    0 <= a.energyLevel <= 100 && 0 <= a.currentPayload
  }

  ghost predicate CountersInRange(s: SimulationRun) {
    0 <= s.completedTasks && 0 <= s.totalEnergyUsed && 0 <= s.totalPesticideUsed
  }

  /**
   * What the router's operations keep true of each row: rows well keyed; every task belongs
   * to an existing simulation, is at rest and in the generator's ranges; every bid is for a
   * task that exists and has been completed; agents and counters in range.
   */
  ghost predicate RowsConsistent(db: Db) {
    && WellFormed(db)
    && (forall k :: k in db.tasks ==>
          db.tasks[k].simulationId in db.simulations && TaskAtRest(db.tasks[k]) && TaskInRange(db.tasks[k]))
    && (forall k :: k in db.bids ==> db.bids[k].taskId in db.tasks && db.tasks[db.bids[k].taskId].status == Completed)
    && (forall k :: k in db.agents ==> AgentInRange(db.agents[k]))
    && (forall k :: k in db.simulations ==> CountersInRange(db.simulations[k]))
  }

  /** How many tasks of the simulation the table holds, and how many of them are completed. */
  ghost function TaskTally(db: Db, simulationId: nat): nat {
    Count(db.tasks, db.nextTaskId, OfSimulation(simulationId))
  }

  ghost function CompletedTally(db: Db, simulationId: nat): nat {
    Count(db.tasks, db.nextTaskId, CompletedOf(simulationId))
  }

  /**
   * A simulation's counters agree with its tasks: it has as many tasks as the creation loop
   * ran for its totalTasks, and completedTasks counts those of them that are completed.
   */
  ghost predicate Tallied(db: Db, s: SimulationRun) {
    TaskTally(db, s.id) == Iterations(s.totalTasks) && s.completedTasks == CompletedTally(db, s.id)
  }

  /** The store invariant: every row consistent, and every simulation's counters tallied against its tasks. */
  ghost predicate Consistent(db: Db) {
    && RowsConsistent(db)
    && (forall k {:trigger Tallied(db, db.simulations[k])} :: k in db.simulations ==> Tallied(db, db.simulations[k]))
  }

  /** In a consistent store, a simulation with a non-negative totalTasks has completed at most that many tasks. */
  lemma CompletedWithinTotal(db: Db, k: nat)
    requires Consistent(db) && k in db.simulations && 0 <= db.simulations[k].totalTasks
    ensures 0 <= db.simulations[k].completedTasks <= db.simulations[k].totalTasks
  {
    assert Tallied(db, db.simulations[k]);
    CountWeaker(db.tasks, db.nextTaskId, CompletedOf(k), OfSimulation(k));
  }

  // ---------------------------------------------------------------- one step, case by case

  /** A step reports "No pending tasks" exactly when the simulation has none, and then writes nothing. */
  lemma StepIdle(db: Db, simulationId: nat, now: nat)
    requires WellFormed(db)
    ensures StepSpec(db, simulationId, now).result == NoPendingTasks <==> PendingTasks(db, simulationId) == []
    ensures PendingTasks(db, simulationId) == [] ==> StepSpec(db, simulationId, now).db == db
  {
  }

  /** "No tasks available" cannot be reported: the pending list is non-empty whenever the first element is read. */
  lemma StepNeverNoTasksAvailable(db: Db, simulationId: nat, now: nat)
    requires WellFormed(db)
    ensures StepSpec(db, simulationId, now).result != NoTasksAvailable
    ensures Message(StepSpec(db, simulationId, now).result) != "No tasks available"
  {
  }

  /** Once the first pending task is announced, the bid list the router reads is exactly Solicit's. */
  lemma StepBidsListed(db: Db, simulationId: nat, now: nat)
    requires Consistent(db) && PendingTasks(db, simulationId) != []
    ensures var task := PendingTasks(db, simulationId)[0];
            var announced := UpdateTaskStatusF(db, task.id, Bidding, None, now);
            && announced.nextBidId == db.nextBidId
            && BidsByTask(SolicitDb(announced, AllAgents(db), task), task.id)
               == Solicit(AllAgents(db), task, db.nextBidId)
  {
    var task := PendingTasks(db, simulationId)[0];
    var announced := UpdateTaskStatusF(db, task.id, Bidding, None, now);
    assert db.tasks[task.id].status == Pending;
    assert NoBidFor(announced, task.id);
    SolicitDbListed(announced, AllAgents(db), task);
  }

  /**
   * "No bids received" is reported exactly when no agent is eligible, and the rollback to
   * pending then leaves the store exactly as it was.
   */
  lemma StepRollback(db: Db, simulationId: nat, now: nat)
    requires Consistent(db) && PendingTasks(db, simulationId) != []
    ensures StepSpec(db, simulationId, now).result == NoBidsReceived
            <==> forall a :: a in AllAgents(db) ==> !Eligible(a)
    ensures StepSpec(db, simulationId, now).result == NoBidsReceived ==> StepSpec(db, simulationId, now).db == db
  {
    var roster := AllAgents(db);
    var task := PendingTasks(db, simulationId)[0];
    var announced := UpdateTaskStatusF(db, task.id, Bidding, None, now);
    StepBidsListed(db, simulationId, now);
    SolicitEmpty(roster, task, db.nextBidId);
    if Solicit(roster, task, db.nextBidId) == [] {
      SolicitDbEffect(announced, roster, task);
      AnnounceUndone(db, task, now);
    }
  }

  /** Announcing a pending, unassigned task and putting it back to pending restores the store. */
  lemma AnnounceUndone(db: Db, task: Task, now: nat)
    requires task.id in db.tasks && db.tasks[task.id] == task
    requires task.status == Pending && task.completedAt.None?
    ensures UpdateTaskStatusF(UpdateTaskStatusF(db, task.id, Bidding, None, now), task.id, Pending, None, now) == db
  {
    var back := UpdateTaskStatusF(UpdateTaskStatusF(db, task.id, Bidding, None, now), task.id, Pending, None, now);
    assert back.tasks[task.id] == task;
    assert back.tasks == db.tasks;
  }

  /** The winner the router finds in its roster is the bidder itself. */
  lemma WinnerFound(roster: seq<Agent>, k: nat)
    requires IdsAscending(roster) && k < |Bidders(roster)|
    ensures Bidders(roster)[k] in roster && Eligible(Bidders(roster)[k])
    ensures FindAgent(roster, Bidders(roster)[k].id) == Some(Bidders(roster)[k])
  {
    var w := Bidders(roster)[k];
    assert w in Bidders(roster);
    var j :| 0 <= j < |roster| && roster[j] == w;
    var found := FindAgent(roster, w.id);
    var i :| 0 <= i < |roster| && roster[i] == found.value && found.value.id == w.id;
    assert i == j;
  }

  /** The statistics write for a simulation that exists. */
  lemma CreditDbEffect(d: Db, simulationId: nat, energyCost: int, pesticideUsed: int)
    requires simulationId in d.simulations
    ensures CreditDb(d, simulationId, energyCost, pesticideUsed)
            == d.(simulations := d.simulations[simulationId := Credited(d.simulations[simulationId], energyCost, pesticideUsed)])
  {
    var s := d.simulations[simulationId];
    assert PatchSimulation(s, SimulationPatch(None, None, None, Some(s.completedTasks + 1), Some(s.totalEnergyUsed + energyCost),
                                              Some(s.totalPesticideUsed + pesticideUsed), None))
           == Credited(s, energyCost, pesticideUsed);
  }

  /** The execution and statistics writes for a winner and simulation that both exist. */
  lemma SettleDbEffect(d: Db, roster: seq<Agent>, task: Task, w: Agent, simulationId: nat, now: nat)
    requires FindAgent(roster, w.id) == Some(w)
    requires w.id in d.agents && d.agents[w.id] == w
    requires task.id in d.tasks && simulationId in d.simulations
    ensures SettleDb(d, roster, task, w.id, simulationId, now)
            == d.(agents := d.agents[w.id := Settled(w, task)],
                  tasks := d.tasks[task.id := PatchTask(d.tasks[task.id], Completed, None, now)],
                  simulations := d.simulations[simulationId := Credited(d.simulations[simulationId], EnergyCost(w, task), PesticideUsed(task))])
  {
    var energyCost := EnergyCost(w, task);
    var pesticideUsed := PesticideUsed(task);
    var moved := UpdateAgentStatusF(d, w.id, Working, Some(task.areaX), Some(task.areaY), Some(Max(0, w.energyLevel - energyCost)),
                                    Some(Max(0, w.currentPayload - pesticideUsed)));
    assert PatchAgent(w, Working, Some(task.areaX), Some(task.areaY), Some(Max(0, w.energyLevel - energyCost)),
                      Some(Max(0, w.currentPayload - pesticideUsed))) == Settled(w, task);
    assert moved == d.(agents := d.agents[w.id := Settled(w, task)]);
    var completed := UpdateTaskStatusF(moved, task.id, Completed, None, now);
    assert completed == moved.(tasks := d.tasks[task.id := PatchTask(d.tasks[task.id], Completed, None, now)]);
    assert SettleDb(d, roster, task, w.id, simulationId, now) == SettleWinner(d, w, task, simulationId, now);
    SettleWinnerSteps(d, w, task, simulationId, now, moved, completed, CreditDb(completed, simulationId, energyCost, pesticideUsed));
    CreditDbEffect(completed, simulationId, energyCost, pesticideUsed);
  }

  /** The winner of a step with bids: the bidder whose bid BestBidIndex picks. */
  ghost function Winner(db: Db, simulationId: nat): Agent
    requires Consistent(db) && PendingTasks(db, simulationId) != []
    requires Solicit(AllAgents(db), PendingTasks(db, simulationId)[0], db.nextBidId) != []
  {
    var roster := AllAgents(db);
    Bidders(roster)[BestBidIndex(Solicit(roster, PendingTasks(db, simulationId)[0], db.nextBidId))]
  }

  /** The bid list depends on the bid table and its counter only. */
  lemma BidsByTaskFrame(d1: Db, d2: Db, taskId: nat)
    requires WellFormed(d1) && WellFormed(d2)
    requires d1.bids == d2.bids && d1.nextBidId == d2.nextBidId
    ensures BidsByTask(d1, taskId) == BidsByTask(d2, taskId)
  {
  }

  /** With bids on the table, the step awards to the winner and settles with the roster it read. */
  lemma StepAwardedTo(db: Db, simulationId: nat, now: nat)
    requires Consistent(db) && PendingTasks(db, simulationId) != []
    requires Solicit(AllAgents(db), PendingTasks(db, simulationId)[0], db.nextBidId) != []
    ensures var roster := AllAgents(db);
            var task := PendingTasks(db, simulationId)[0];
            var w := Winner(db, simulationId);
            var solicited := SolicitDb(UpdateTaskStatusF(db, task.id, Bidding, None, now), roster, task);
            StepSpec(db, simulationId, now)
              == StepOutcome(SettleDb(UpdateTaskStatusF(solicited, task.id, Assigned, Some(w.id), now),
                                      roster, task, w.id, simulationId, now),
                             StepCompleted(task.id, w.id))
  {
    var roster := AllAgents(db);
    var task := PendingTasks(db, simulationId)[0];
    var offers := Solicit(roster, task, db.nextBidId);
    StepBidsListed(db, simulationId, now);
    var k := BestBidIndex(offers);
    assert offers[k].agentId == Bidders(roster)[k].id;
  }

  /** The award and settlement writes on top of the announcement and the bidding loop. */
  lemma AwardSettles(db: Db, solicited: Db, roster: seq<Agent>, task: Task, w: Agent, simulationId: nat, now: nat)
    requires task.id in db.tasks && db.tasks[task.id] == task && task.completedAt.None?
    requires w.id in db.agents && db.agents[w.id] == w && FindAgent(roster, w.id) == Some(w)
    requires simulationId in db.simulations
    requires var announced := UpdateTaskStatusF(db, task.id, Bidding, None, now);
             solicited == announced.(bids := solicited.bids, nextBidId := solicited.nextBidId)
    ensures SettleDb(UpdateTaskStatusF(solicited, task.id, Assigned, Some(w.id), now), roster, task, w.id, simulationId, now)
            == db.(agents := db.agents[w.id := Settled(w, task)],
                   tasks := db.tasks[task.id := task.(status := Completed, assignedAgentId := Some(w.id), completedAt := Some(now))],
                   simulations := db.simulations[simulationId := Credited(db.simulations[simulationId], EnergyCost(w, task), PesticideUsed(task))],
                   bids := solicited.bids, nextBidId := solicited.nextBidId)
  {
    var awarded := UpdateTaskStatusF(solicited, task.id, Assigned, Some(w.id), now);
    var done := task.(status := Completed, assignedAgentId := Some(w.id), completedAt := Some(now));
    assert awarded.tasks[task.id] == task.(status := Assigned, assignedAgentId := Some(w.id));
    assert awarded == db.(tasks := awarded.tasks, bids := solicited.bids, nextBidId := solicited.nextBidId);
    SettleDbEffect(awarded, roster, task, w, simulationId, now);
    assert PatchTask(awarded.tasks[task.id], Completed, None, now) == done;
    SettledOver(db, awarded, SettleDb(awarded, roster, task, w.id, simulationId, now), task.id, done, w.id, Settled(w, task),
                simulationId, Credited(db.simulations[simulationId], EnergyCost(w, task), PesticideUsed(task)));
  }

  /** The settlement writes read against the store before the award. */
  lemma SettledOver(db: Db, awarded: Db, out: Db, taskId: nat, done: Task, agentId: nat, settled: Agent,
                    simulationId: nat, credited: SimulationRun)
    requires taskId in db.tasks
    requires awarded.agents == db.agents && awarded.simulations == db.simulations
    requires awarded.nextAgentId == db.nextAgentId && awarded.nextTaskId == db.nextTaskId
    requires awarded.nextSimulationId == db.nextSimulationId
    requires awarded.tasks.Keys == db.tasks.Keys
    requires forall k :: k in db.tasks && k != taskId ==> awarded.tasks[k] == db.tasks[k]
    requires out == awarded.(agents := awarded.agents[agentId := settled], tasks := awarded.tasks[taskId := done],
                             simulations := awarded.simulations[simulationId := credited])
    ensures out == db.(agents := db.agents[agentId := settled], tasks := db.tasks[taskId := done],
                       simulations := db.simulations[simulationId := credited], bids := awarded.bids, nextBidId := awarded.nextBidId)
  {
    assert awarded.tasks[taskId := done] == db.tasks[taskId := done];
  }

  /**
   * A step with at least one eligible agent awards the first pending task to the winner and
   * settles it: the winner moves to the task's area and pays energy and pesticide, the task
   * ends completed, assigned to the winner and time-stamped, the simulation is credited, and
   * the task's bids are exactly the eligible agents' bids. Nothing else changes.
   */
  lemma StepAwards(db: Db, simulationId: nat, now: nat)
    requires Consistent(db) && PendingTasks(db, simulationId) != []
    requires exists a :: a in AllAgents(db) && Eligible(a)
    ensures var task := PendingTasks(db, simulationId)[0];
            var offers := Solicit(AllAgents(db), task, db.nextBidId);
            offers != [] &&
            var w := Winner(db, simulationId);
            var out := StepSpec(db, simulationId, now);
            && out.result == StepCompleted(task.id, w.id)
            && w.id in db.agents && db.agents[w.id] == w && Eligible(w)
            && FindAgent(AllAgents(db), w.id) == Some(w)
            && out.db.agents == db.agents[w.id := Settled(w, task)]
            && out.db.tasks == db.tasks[task.id := task.(status := Completed, assignedAgentId := Some(w.id), completedAt := Some(now))]
            && simulationId in db.simulations
            && out.db.simulations
               == db.simulations[simulationId := Credited(db.simulations[simulationId], EnergyCost(w, task), PesticideUsed(task))]
            && out.db == db.(agents := out.db.agents, tasks := out.db.tasks, simulations := out.db.simulations,
                             bids := out.db.bids, nextBidId := db.nextBidId + |offers|)
            && out.db.bids == SolicitDb(UpdateTaskStatusF(db, task.id, Bidding, None, now), AllAgents(db), task).bids
  {
    var roster := AllAgents(db);
    var task := PendingTasks(db, simulationId)[0];
    var offers := Solicit(roster, task, db.nextBidId);
    SolicitEmpty(roster, task, db.nextBidId);
    StepAwardedTo(db, simulationId, now);
    var announced := UpdateTaskStatusF(db, task.id, Bidding, None, now);
    var solicited := SolicitDb(announced, roster, task);
    StepBidsListed(db, simulationId, now);
    SolicitDbEffect(announced, roster, task);
    var w := Winner(db, simulationId);
    WinnerFound(roster, BestBidIndex(offers));
    AwardSettles(db, solicited, roster, task, w, simulationId, now);
  }

  /**
   * The bids a step with eligible agents leaves: the old ones untouched, and the new ones
   * exactly the eligible agents' bids for the announced task, which getBidsByTask lists.
   */
  lemma StepAwardBids(db: Db, simulationId: nat, now: nat)
    requires Consistent(db) && PendingTasks(db, simulationId) != []
    requires exists a :: a in AllAgents(db) && Eligible(a)
    ensures var task := PendingTasks(db, simulationId)[0];
            var offers := Solicit(AllAgents(db), task, db.nextBidId);
            var out := StepSpec(db, simulationId, now).db;
            && BidsByTask(out, task.id) == offers
            && (forall k :: k in db.bids ==> k in out.bids && out.bids[k] == db.bids[k])
            && (forall k :: k in out.bids ==> k in db.bids || db.nextBidId <= k < out.nextBidId)
            && (forall k :: k in out.bids && k !in db.bids ==> out.bids[k].taskId == task.id)
  {
    var roster := AllAgents(db);
    var task := PendingTasks(db, simulationId)[0];
    var announced := UpdateTaskStatusF(db, task.id, Bidding, None, now);
    var solicited := SolicitDb(announced, roster, task);
    StepAwards(db, simulationId, now);
    StepBidsListed(db, simulationId, now);
    SolicitDbEffect(announced, roster, task);
    SolicitDbNewBids(announced, roster, task);
    BidsByTaskFrame(StepSpec(db, simulationId, now).db, solicited, task.id);
  }

  /**
   * The reduce picks a lowest bid, and among equal lowest bids the earliest: the winner bids
   * no more than any eligible agent, and strictly less than every eligible agent listed
   * (and so numbered) before it.
   */
  lemma WinnerIsBest(db: Db, simulationId: nat)
    requires Consistent(db) && PendingTasks(db, simulationId) != []
    requires Solicit(AllAgents(db), PendingTasks(db, simulationId)[0], db.nextBidId) != []
    ensures var task := PendingTasks(db, simulationId)[0];
            var w := Winner(db, simulationId);
            && (forall a :: a in AllAgents(db) && Eligible(a) ==> BidValue(w, task) <= BidValue(a, task))
            && (forall a :: a in AllAgents(db) && Eligible(a) && a.id < w.id ==> BidValue(w, task) < BidValue(a, task))
  {
    BestBidder(AllAgents(db), PendingTasks(db, simulationId)[0], db.nextBidId);
  }

  /** WinnerIsBest on the roster alone. */
  lemma BestBidder(roster: seq<Agent>, task: Task, firstId: nat)
    requires IdsAscending(roster) && Solicit(roster, task, firstId) != []
    ensures var w := Bidders(roster)[BestBidIndex(Solicit(roster, task, firstId))];
            && (forall a :: a in roster && Eligible(a) ==> BidValue(w, task) <= BidValue(a, task))
            && (forall a :: a in roster && Eligible(a) && a.id < w.id ==> BidValue(w, task) < BidValue(a, task))
  {
    var offers := Solicit(roster, task, firstId);
    var bs := Bidders(roster);
    var k := BestBidIndex(offers);
    var w := bs[k];
    BiddersAscending(roster);
    forall a | a in roster && Eligible(a)
      ensures BidValue(w, task) <= BidValue(a, task)
      ensures a.id < w.id ==> BidValue(w, task) < BidValue(a, task)
    {
      assert a in bs;
      var j :| 0 <= j < |bs| && bs[j] == a;
      assert offers[j].bidValue == BidValue(a, task);
      if a.id < w.id {
        assert j < k;
      }
    }
  }

  /** Among two eligible workers with equal energy, the strictly farther one never wins. */
  lemma NearerWorkerWins(db: Db, simulationId: nat, a: Agent, b: Agent)
    requires Consistent(db) && PendingTasks(db, simulationId) != []
    requires a in AllAgents(db) && b in AllAgents(db) && Eligible(a) && Eligible(b)
    requires a.energyLevel == b.energyLevel
    requires Distance(a, PendingTasks(db, simulationId)[0]) < Distance(b, PendingTasks(db, simulationId)[0])
    ensures Solicit(AllAgents(db), PendingTasks(db, simulationId)[0], db.nextBidId) != []
    ensures Winner(db, simulationId).id != b.id
  {
    var roster := AllAgents(db);
    var task := PendingTasks(db, simulationId)[0];
    SolicitEmpty(roster, task, db.nextBidId);
    WinnerIsBest(db, simulationId);
    NearerBidsLower(a, b, task);
    var w := Winner(db, simulationId);
    WinnerFound(roster, BestBidIndex(Solicit(roster, task, db.nextBidId)));
  }

  // ---------------------------------------------------------------- the invariant is kept

  /** Every step keeps the store consistent: in particular no task is left bidding or assigned. */
  lemma StepPreservesConsistent(db: Db, simulationId: nat, now: nat)
    requires Consistent(db)
    ensures Consistent(StepSpec(db, simulationId, now).db)
  {
    if PendingTasks(db, simulationId) != [] {
      StepRollback(db, simulationId, now);
      if exists a :: a in AllAgents(db) && Eligible(a) {
        AwardKeepsConsistent(db, simulationId, now);
      }
    }
  }

  lemma AwardKeepsConsistent(db: Db, simulationId: nat, now: nat)
    requires Consistent(db) && PendingTasks(db, simulationId) != []
    requires exists a :: a in AllAgents(db) && Eligible(a)
    ensures Consistent(StepSpec(db, simulationId, now).db)
  {
    var task := PendingTasks(db, simulationId)[0];
    var w := Winner(db, simulationId);
    var out := StepSpec(db, simulationId, now).db;
    StepAwards(db, simulationId, now);
    StepAwardBids(db, simulationId, now);
    AwardedConsistent(db, out, task, w, simulationId, now);
    AwardedTallies(db, out, task, task.(status := Completed, assignedAgentId := Some(w.id), completedAt := Some(now)),
                   simulationId, Credited(db.simulations[simulationId], EnergyCost(w, task), PesticideUsed(task)));
  }

  /** The award's effect, as StepAwards and StepAwardBids state it, keeps the invariant. */
  lemma AwardedConsistent(db: Db, out: Db, task: Task, w: Agent, simulationId: nat, now: nat)
    requires Consistent(db) && WellFormed(out)
    requires task.id in db.tasks && db.tasks[task.id] == task && task.status == Pending
    requires w.id in db.agents && db.agents[w.id] == w && simulationId in db.simulations
    requires out.agents == db.agents[w.id := Settled(w, task)]
    requires out.tasks == db.tasks[task.id := task.(status := Completed, assignedAgentId := Some(w.id), completedAt := Some(now))]
    requires out.simulations
             == db.simulations[simulationId := Credited(db.simulations[simulationId], EnergyCost(w, task), PesticideUsed(task))]
    requires forall k :: k in db.bids ==> k in out.bids && out.bids[k] == db.bids[k]
    requires forall k :: k in out.bids && k !in db.bids ==> out.bids[k].taskId == task.id
    ensures RowsConsistent(out)
  {
    assert TaskInRange(task);
    AwardedTasks(db, out, task, task.(status := Completed, assignedAgentId := Some(w.id), completedAt := Some(now)));
    AwardedAgents(db, out, w, task);
    AwardedCounters(db, out, simulationId, w, task);
  }

  /**
   * Completing one pending task of the simulation and crediting that simulation with one
   * more completed task keeps every simulation tallied.
   */
  lemma AwardedTallies(db: Db, out: Db, task: Task, done: Task, simulationId: nat, credited: SimulationRun)
    requires Consistent(db)
    requires task.id in db.tasks && db.tasks[task.id] == task && task.status == Pending && task.simulationId == simulationId
    requires done.simulationId == simulationId && done.status == Completed
    requires out.tasks == db.tasks[task.id := done] && out.nextTaskId == db.nextTaskId
    requires simulationId in db.simulations
    requires credited == db.simulations[simulationId].(completedTasks := credited.completedTasks,
                                                       totalEnergyUsed := credited.totalEnergyUsed,
                                                       totalPesticideUsed := credited.totalPesticideUsed)
    requires credited.completedTasks == db.simulations[simulationId].completedTasks + 1
    requires out.simulations == db.simulations[simulationId := credited]
    ensures forall k :: k in out.simulations ==> Tallied(out, out.simulations[k])
  {
    forall k | k in out.simulations
      ensures Tallied(out, out.simulations[k])
    {
      assert Tallied(db, db.simulations[k]);
      CountUpdate(db.tasks, db.nextTaskId, OfSimulation(k), task.id, done);
      CountUpdate(db.tasks, db.nextTaskId, CompletedOf(k), task.id, done);
    }
  }

  lemma AwardedTasks(db: Db, out: Db, task: Task, done: Task)
    requires Consistent(db) && task.id in db.tasks && db.tasks[task.id] == task && task.status == Pending
    requires done == task.(status := Completed, assignedAgentId := done.assignedAgentId, completedAt := done.completedAt)
    requires done.assignedAgentId.Some? && done.completedAt.Some?
    requires out.tasks == db.tasks[task.id := done] && out.simulations.Keys == db.simulations.Keys
    requires forall k :: k in db.bids ==> k in out.bids && out.bids[k] == db.bids[k]
    requires forall k :: k in out.bids && k !in db.bids ==> out.bids[k].taskId == task.id
    ensures forall k :: k in out.tasks ==>
              out.tasks[k].simulationId in out.simulations && TaskAtRest(out.tasks[k]) && TaskInRange(out.tasks[k])
    ensures forall k :: k in out.bids ==> out.bids[k].taskId in out.tasks && out.tasks[out.bids[k].taskId].status == Completed
  {
    assert TaskInRange(task);
  }

  lemma AwardedAgents(db: Db, out: Db, w: Agent, task: Task)
    requires Consistent(db) && w.id in db.agents && db.agents[w.id] == w && TaskInRange(task)
    requires out.agents == db.agents[w.id := Settled(w, task)]
    ensures forall k :: k in out.agents ==> AgentInRange(out.agents[k])
  {
    assert AgentInRange(w);
    SettledBounds(w, task);
  }

  lemma AwardedCounters(db: Db, out: Db, simulationId: nat, w: Agent, task: Task)
    requires Consistent(db) && simulationId in db.simulations && TaskInRange(task)
    requires out.simulations
             == db.simulations[simulationId := Credited(db.simulations[simulationId], EnergyCost(w, task), PesticideUsed(task))]
    ensures forall k :: k in out.simulations ==> CountersInRange(out.simulations[k])
  {
    assert CountersInRange(db.simulations[simulationId]);
    CreditedMonotone(db.simulations[simulationId], w, task);
  }
}
