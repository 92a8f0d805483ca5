/**
 * The pure part of one Contract-Net round: the integer square root that replaces the
 * floating-point distance, who may bid and what they bid, the choice of the winning bid,
 * and the resource consequences for the winner and for the simulation's counters.
 */
module Bidding {
  import opened Wrappers
  import opened Schema

  // ---------------------------------------------------------------- integer distance

  /** Floor of the square root. */
  function Isqrt(n: nat): (r: nat)
    ensures r * r <= n < (r + 1) * (r + 1)
    decreases n
  {
    if n < 4 then (if n == 0 then 0 else 1)
    else
      var h := Isqrt(n / 4);
      QuarterRoot(n, h);
      var c := 2 * h;
      if (c + 1) * (c + 1) <= n then c + 1 else c
  }

  /** Doubling the root of n / 4 gives c with c * c <= n < (c + 2) * (c + 2). */
  lemma QuarterRoot(n: nat, h: nat)
    requires h * h <= n / 4 < (h + 1) * (h + 1)
    ensures (2 * h) * (2 * h) <= n < (2 * h + 2) * (2 * h + 2)
  {
    var q := n / 4;
    assert n == 4 * q + n % 4 && n % 4 < 4;
    assert (2 * h) * (2 * h) == 4 * (h * h);
    assert (2 * h + 2) * (2 * h + 2) == 4 * ((h + 1) * (h + 1));
  }

  lemma SquareMonotone(a: nat, b: nat)
    requires a <= b
    ensures a * a <= b * b
  {
    assert a * a <= a * b <= b * b;
  }

  /** The floor square root is the only r with r * r <= n < (r + 1) * (r + 1). */
  lemma IsqrtUnique(n: nat, r: nat)
    requires r * r <= n < (r + 1) * (r + 1)
    ensures r == Isqrt(n)
  {
    var s := Isqrt(n);
    if r < s {
      SquareMonotone(r + 1, s);
    } else if s < r {
      SquareMonotone(s + 1, r);
    }
  }

  lemma IsqrtMonotone(m: nat, n: nat)
    requires m <= n
    ensures Isqrt(m) <= Isqrt(n)
  {
    if Isqrt(n) < Isqrt(m) {
      SquareMonotone(Isqrt(n) + 1, Isqrt(m));
    }
  }

  lemma IsqrtOfSquare(k: nat)
    ensures Isqrt(k * k) == k
  {
    IsqrtUnique(k * k, k);
  }

  function Square(x: int): (r: nat)
    ensures r == x * x
  {
    if x < 0 then (-x) * (-x) else x * x
  }

  function SquaredDistance(a: Agent, t: Task): nat {
    Square(a.positionX - t.areaX) + Square(a.positionY - t.areaY)
  }

  /** Floor of the Euclidean distance between the agent's position and the task's area. */
  function Distance(a: Agent, t: Task): (r: nat)
    ensures r * r <= SquaredDistance(a, t) < (r + 1) * (r + 1)
  {
    Isqrt(SquaredDistance(a, t))
  }

  // ---------------------------------------------------------------- bidding

  /** The condition an agent must meet to bid: a worker with energy above 20 and payload left. */
  predicate Eligible(a: Agent) {
    a.kind == Worker && a.energyLevel > 20 && a.currentPayload > 0
  }

  /**
   * floor(distance + (100 - energyLevel)): the floor of the distance plus the energy the agent
   * has used. Lower is better: near agents with much energy left bid low.
   */
  function BidValue(a: Agent, t: Task): (r: int)
    ensures var d := r - (100 - a.energyLevel); d >= 0 && d * d <= SquaredDistance(a, t) < (d + 1) * (d + 1)
  {
    Distance(a, t) + (100 - a.energyLevel)
  }

  /** The eligible agents of a roster, in roster order: the agents the bidding loop creates a bid for. */
  function Bidders(roster: seq<Agent>): (r: seq<Agent>)
    ensures |r| <= |roster|
    ensures forall a :: a in r <==> a in roster && Eligible(a)
    decreases |roster|
  {
    if roster == [] then []
    else
      var init := roster[..|roster| - 1];
      var a := roster[|roster| - 1];
      assert roster == init + [a];
      Bidders(init) + (if Eligible(a) then [a] else [])
  }

  ghost predicate IdsAscending(agents: seq<Agent>) {
    forall i, j :: 0 <= i < j < |agents| ==> agents[i].id < agents[j].id
  }

  /** Bidders keeps the roster's order, so bidders of a roster with distinct ids bid once each. */
  lemma {:induction false} BiddersAscending(roster: seq<Agent>)
    requires IdsAscending(roster)
    ensures IdsAscending(Bidders(roster))
    decreases |roster|
  {
    if roster != [] {
      var init := roster[..|roster| - 1];
      var a := roster[|roster| - 1];
      assert roster == init + [a];
      assert IdsAscending(init);
      BiddersAscending(init);
      forall b | b in Bidders(init) ensures b.id < a.id {
        var i :| 0 <= i < |init| && init[i] == b;
      }
    }
  }

  /**
   * The bids one announcement collects: one per bidder, in roster order, numbered from
   * `firstId` as the bids table hands out ids.
   */
  function Solicit(roster: seq<Agent>, task: Task, firstId: nat): (r: seq<TaskBid>)
    ensures |r| == |Bidders(roster)|
    ensures forall i :: 0 <= i < |r| ==>
              r[i] == TaskBid(firstId + i, task.id, Bidders(roster)[i].id, BidValue(Bidders(roster)[i], task))
  {
    var b := Bidders(roster);
    seq(|b|, i requires 0 <= i < |b| => TaskBid(firstId + i, task.id, b[i].id, BidValue(b[i], task)))
  }

  /**
   * The index of the bid `bids.reduce((min, bid) => bid.bidValue < min.bidValue ? bid : min)`
   * returns: a lowest bid, and the first of several equal lowest ones.
   */
  function BestBidIndex(bids: seq<TaskBid>): (k: nat)
    requires |bids| > 0
    ensures k < |bids|
    ensures forall j :: 0 <= j < |bids| ==> bids[k].bidValue <= bids[j].bidValue
    ensures forall j :: 0 <= j < k ==> bids[k].bidValue < bids[j].bidValue
    decreases |bids|
  {
    if |bids| == 1 then 0
    else
      var last := |bids| - 1;
      var m := BestBidIndex(bids[..last]);
      assert forall j :: 0 <= j < last ==> bids[..last][j] == bids[j];
      if bids[last].bidValue < bids[m].bidValue then last else m
  }

  /** The two properties of BestBidIndex single out one index. */
  lemma BestBidIndexUnique(bids: seq<TaskBid>, k: nat)
    requires k < |bids|
    requires forall j :: 0 <= j < |bids| ==> bids[k].bidValue <= bids[j].bidValue
    requires forall j :: 0 <= j < k ==> bids[k].bidValue < bids[j].bidValue
    ensures k == BestBidIndex(bids)
  {
    var b := BestBidIndex(bids);
    assert !(k < b) && !(b < k);
  }

  /** `agents.find(a => a.id === id)`: the first agent of the roster with that id. */
  function FindAgent(roster: seq<Agent>, id: nat): (r: Option<Agent>)
    ensures r.None? <==> forall i :: 0 <= i < |roster| ==> roster[i].id != id
    ensures r.Some? ==> exists i :: 0 <= i < |roster| && roster[i] == r.value && r.value.id == id
                                    && forall j :: 0 <= j < i ==> roster[j].id != id
    decreases |roster|
  {
    if roster == [] then None
    else if roster[0].id == id then Some(roster[0])
    else
      var r := FindAgent(roster[1..], id);
      assert forall i :: 1 <= i < |roster| ==> roster[i] == roster[1..][i - 1];
      r
  }

  // ---------------------------------------------------------------- settlement

  function Max(a: int, b: int): (r: int)
    ensures r >= a && r >= b && (r == a || r == b)
  {
    if a < b then b else a
  }

  /** floor(distance * 0.5): half the floor distance, rounded down. */
  function EnergyCost(a: Agent, t: Task): (r: nat)
    ensures (2 * r) * (2 * r) <= SquaredDistance(a, t) < (2 * r + 2) * (2 * r + 2)
  {
    var d := Distance(a, t);
    SquareMonotone(2 * (d / 2), d);
    SquareMonotone(d + 1, 2 * (d / 2) + 2);
    d / 2
  }

  /** floor(infestationDensity * 10), in ml. */
  function PesticideUsed(t: Task): int {
    t.infestationDensity * 10
  }

  /** The winner after settlement: working, at the task's area, with energy and payload spent, clamped at zero. */
  function Settled(w: Agent, t: Task): Agent {
    w.(status := Working, positionX := t.areaX, positionY := t.areaY,
       energyLevel := Max(0, w.energyLevel - EnergyCost(w, t)),
       currentPayload := Max(0, w.currentPayload - PesticideUsed(t)))
  }

  /** A simulation row after one settled task: one more completed task, the costs added. */
  function Credited(s: SimulationRun, energyCost: int, pesticideUsed: int): SimulationRun {
    s.(completedTasks := s.completedTasks + 1,
       totalEnergyUsed := s.totalEnergyUsed + energyCost,
       totalPesticideUsed := s.totalPesticideUsed + pesticideUsed)
  }

  // ---------------------------------------------------------------- properties

  /** Exactly the eligible agents bid, each with its own bid value, and every bid is for the announced task. */
  lemma SolicitFromEligible(roster: seq<Agent>, task: Task, firstId: nat)
    ensures forall b :: b in Solicit(roster, task, firstId) ==>
              b.taskId == task.id && exists a :: a in roster && Eligible(a) && b.agentId == a.id && b.bidValue == BidValue(a, task)
    ensures forall a :: a in roster && Eligible(a) ==>
              exists b :: b in Solicit(roster, task, firstId) && b.agentId == a.id && b.bidValue == BidValue(a, task)
  {
    var s := Solicit(roster, task, firstId);
    var bs := Bidders(roster);
    forall b | b in s
      ensures b.taskId == task.id && exists a :: a in roster && Eligible(a) && b.agentId == a.id && b.bidValue == BidValue(a, task)
    {
      var i :| 0 <= i < |s| && s[i] == b;
      assert bs[i] in bs;
    }
    forall a | a in roster && Eligible(a)
      ensures exists b :: b in s && b.agentId == a.id && b.bidValue == BidValue(a, task)
    {
      var i :| 0 <= i < |bs| && bs[i] == a;
      assert s[i] in s;
    }
  }

  /** No bid at all exactly when no agent of the roster is eligible (scouts, drained or empty workers only). */
  lemma SolicitEmpty(roster: seq<Agent>, task: Task, firstId: nat)
    ensures Solicit(roster, task, firstId) == [] <==> forall a :: a in roster ==> !Eligible(a)
  {
    var bs := Bidders(roster);
    if bs != [] {
      assert bs[0] in bs;
    }
  }

  /** Scouts never bid: no bid carries the id of a scout of the roster. */
  lemma ScoutsNeverBid(roster: seq<Agent>, task: Task, firstId: nat, scout: Agent)
    requires IdsAscending(roster)
    requires scout in roster && scout.kind == Scout
    ensures forall i :: 0 <= i < |Solicit(roster, task, firstId)| ==> Solicit(roster, task, firstId)[i].agentId != scout.id
  {
    var s := Solicit(roster, task, firstId);
    var bs := Bidders(roster);
    var j :| 0 <= j < |roster| && roster[j] == scout;
    forall i | 0 <= i < |s| ensures s[i].agentId != scout.id {
      assert bs[i] in bs;
      var k :| 0 <= k < |roster| && roster[k] == bs[i];
      assert k != j;
    }
  }

  /** Between two agents with the same energy, the one whose floor distance is smaller bids strictly lower. */
  lemma NearerBidsLower(a: Agent, b: Agent, t: Task)
    requires a.energyLevel == b.energyLevel
    ensures Distance(a, t) < Distance(b, t) ==> BidValue(a, t) < BidValue(b, t)
    ensures SquaredDistance(a, t) <= SquaredDistance(b, t) ==> BidValue(a, t) <= BidValue(b, t)
  {
    if SquaredDistance(a, t) <= SquaredDistance(b, t) {
      IsqrtMonotone(SquaredDistance(a, t), SquaredDistance(b, t));
    }
  }

  /** The settled winner: working at the task's area, energy and payload never negative and never higher. */
  lemma SettledBounds(w: Agent, t: Task)
    requires w.energyLevel >= 0 && w.currentPayload >= 0 && t.infestationDensity >= 0
    ensures var s := Settled(w, t);
            && s.status == Working && s.positionX == t.areaX && s.positionY == t.areaY
            && 0 <= s.energyLevel <= w.energyLevel
            && 0 <= s.currentPayload <= w.currentPayload
            && (EnergyCost(w, t) >= w.energyLevel ==> s.energyLevel == 0)
            && (EnergyCost(w, t) < w.energyLevel ==> s.energyLevel == w.energyLevel - EnergyCost(w, t))
            && (PesticideUsed(t) >= w.currentPayload ==> s.currentPayload == 0)
            && (PesticideUsed(t) < w.currentPayload ==> s.currentPayload == w.currentPayload - PesticideUsed(t))
            && s.id == w.id && s.kind == w.kind && s.name == w.name && s.payloadCapacity == w.payloadCapacity
  {
  }

  /**
   * The energy cost is zero exactly when the task is within squared distance 3 (one step
   * along each axis at most): a completed task need not raise totalEnergyUsed.
   */
  lemma NoEnergyWhenNear(w: Agent, t: Task)
    ensures EnergyCost(w, t) == 0 <==> SquaredDistance(w, t) <= 3
  {
    var c := EnergyCost(w, t);
    if c >= 1 {
      SquareMonotone(2, 2 * c);
    }
  }

  /** Crediting a settled task raises completedTasks by one and never lowers the two cost totals. */
  lemma CreditedMonotone(s: SimulationRun, w: Agent, t: Task)
    requires t.infestationDensity >= 0
    ensures var c := Credited(s, EnergyCost(w, t), PesticideUsed(t));
            && c.completedTasks == s.completedTasks + 1
            && s.totalEnergyUsed <= c.totalEnergyUsed
            && c.totalPesticideUsed == s.totalPesticideUsed + 10 * t.infestationDensity
            && s.totalPesticideUsed <= c.totalPesticideUsed
            && c.(completedTasks := s.completedTasks, totalEnergyUsed := s.totalEnergyUsed,
                  totalPesticideUsed := s.totalPesticideUsed) == s
  {
  }
}
