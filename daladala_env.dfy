/** The Daladala bus-route environment: a minibus drives a fixed route across a
    15x15 grid, one cell per step, while the agent chooses one of five actions
    (Move, Pickup, Dropoff, Stop, SpeedUp) that are scored against police
    checkpoints and traffic lights placed at random on every reset.

    `EnvState`, `ResetState` and `Transition` are the specification; the class
    `Env` holds the same fields, is mutated in place by `Reset` and `Step`, and
    is proved to follow the specification. */
module Daladala {

  /** A grid cell (x, y), 0 <= x, y <= 14. */
  datatype Cell = Cell(x: int, y: int)

  const MaxSteps := 350
  const PhysicalMax := 50
  /** Above this many passengers the bus is over the legal capacity. */
  const LegalMax := 33
  /** Above this many passengers speeding up crashes the bus. */
  const OverloadMax := 40
  const TopSpeed := 3
  const Fare := 1000
  const PoliceCount := 3
  const LightCount := 4
  /** Most passengers seeded at a high-demand stop by a reset (a value of `hash(stop) % 11`). */
  const MaxSeeded := 10
  /** Lookahead distances are reported within 1..5 cells. */
  const Window := 5
  const Red := 1
  const Green := 0

  // The five actions of the discrete action space.
  const Move := 0
  const Pickup := 1
  const Dropoff := 2
  const Stop := 3
  const SpeedUp := 4

  /** The fixed route: right along row 14, then up column 14. */
  const Route: seq<Cell> := BuildRoute()

  function BuildRoute(): seq<Cell>
  {
    seq(15, x => Cell(x, 14)) + seq(14, k => Cell(14, 13 - k))
  }

  const HighDemandStops: seq<Cell> := [Cell(4, 14), Cell(8, 14), Cell(14, 8), Cell(14, 3)]

  function Min(a: int, b: int): int { if a <= b then a else b }
  function Max(a: int, b: int): int { if a >= b then a else b }

  predicate Distinct<T(==)>(s: seq<T>)
  {
    forall i, j :: 0 <= i < j < |s| ==> s[i] != s[j]
  }

  // ---------------------------------------------------------------------------
  // The route

  lemma RouteAt(i: int)
    requires 0 <= i < |Route|
    ensures |Route| == 29
    ensures Route[i] == if i < 15 then Cell(i, 14) else Cell(14, 28 - i)
  {
  }

  /** The route starts at (0, 14), turns at (14, 14), ends at (14, 0), and
      every step moves to a neighbouring cell of the grid. */
  lemma RouteShape()
    ensures |Route| == 29
    ensures Route[0] == Cell(0, 14) && Route[14] == Cell(14, 14) && Route[28] == Cell(14, 0)
    ensures forall i :: 0 <= i < |Route| ==> 0 <= Route[i].x <= 14 && 0 <= Route[i].y <= 14
    ensures forall i :: 0 < i < |Route| ==>
      (Route[i].x - Route[i - 1].x) + (Route[i - 1].y - Route[i].y) == 1
      && Route[i].x >= Route[i - 1].x && Route[i].y <= Route[i - 1].y
  {
    forall i | 0 < i < |Route|
      ensures (Route[i].x - Route[i - 1].x) + (Route[i - 1].y - Route[i].y) == 1
      ensures Route[i].x >= Route[i - 1].x && Route[i].y <= Route[i - 1].y
    {
      RouteAt(i);
      RouteAt(i - 1);
    }
  }

  lemma RouteDistinct()
    ensures Distinct(Route)
  {
    forall i, j | 0 <= i < j < |Route| ensures Route[i] != Route[j] {
      RouteAt(i);
      RouteAt(j);
    }
  }

  /** Every high-demand stop lies on the route. */
  lemma StopsOnRoute()
    ensures forall c :: c in HighDemandStops ==> c in Route
  {
    RouteAt(4);
    RouteAt(8);
    RouteAt(20);
    RouteAt(25);
  }

  /** The route cells that are not high-demand stops, in route order: the
      pool from which hazards are sampled. */
  function Available(cells: seq<Cell>): (r: seq<Cell>)
    ensures forall c :: c in r <==> c in cells && c !in HighDemandStops
    ensures Distinct(cells) ==> Distinct(r)
  {
    if cells == [] then []
    else
      var rest := Available(cells[1..]);
      if cells[0] in HighDemandStops then rest
      else
        assert Distinct(cells) ==> cells[0] !in cells[1..];
        [cells[0]] + rest
  }

  lemma {:induction false} AvailableAppend(a: seq<Cell>, b: seq<Cell>)
    ensures Available(a + b) == Available(a) + Available(b)
  {
    if a == [] {
      assert a + b == b;
    } else {
      assert (a + b)[1..] == a[1..] + b;
      AvailableAppend(a[1..], b);
    }
  }

  function StopsBefore(k: int): int
  {
    (if k > 4 then 1 else 0) + (if k > 8 then 1 else 0) + (if k > 20 then 1 else 0) + (if k > 25 then 1 else 0)
  }

  lemma StopAt(i: int)
    requires 0 <= i < |Route|
    ensures Route[i] in HighDemandStops <==> i == 4 || i == 8 || i == 20 || i == 25
  {
    RouteAt(i);
  }

  lemma {:induction false} AvailablePrefix(k: int)
    requires 0 <= k <= |Route|
    ensures |Available(Route[..k])| == k - StopsBefore(k)
  {
    if k > 0 {
      var c := Route[k - 1];
      AvailablePrefix(k - 1);
      assert Route[..k] == Route[..k - 1] + [c];
      AvailableAppend(Route[..k - 1], [c]);
      assert [c][1..] == [];
      assert Available([c]) == if c in HighDemandStops then [] else [c];
      StopAt(k - 1);
    }
  }

  /** 25 route cells are not stops, so the sampling of 7 hazards always runs. */
  lemma AvailableSize()
    ensures |Available(Route)| == 25
  {
    RouteAt(0);
    AvailablePrefix(29);
    assert Route[..29] == Route;
  }

  // ---------------------------------------------------------------------------
  // State

  /** The fields of the environment that reset and step change. */
  datatype EnvState = EnvState(
    stepCount: int,
    passengers: int,
    money: int,
    posIdx: int,
    speed: int,
    fined: bool,
    lightCycle: int,
    police: seq<Cell>,
    lights: seq<Cell>,
    lightStates: map<Cell, int>,
    waiting: map<Cell, int>)

  /** The state of the light at `c` (`traffic_light_states.get(c, 0)`). */
  function LightAt(s: EnvState, c: Cell): int
  {
    if c in s.lightStates then s.lightStates[c] else Green
  }

  /** A red light or a police checkpoint at `c`. */
  predicate MustStop(s: EnvState, c: Cell)
  {
    LightAt(s, c) != 0 || c in s.police
  }

  /** Passengers waiting at `c` (`passengers_at_stop.get(c, 0)`). */
  function WaitingAt(s: EnvState, c: Cell): int
  {
    if c in s.waiting then s.waiting[c] else 0
  }

  /** Three police checkpoints and four lights on seven distinct route cells,
      none of them a high-demand stop. */
  predicate HazardsPlaced(police: seq<Cell>, lights: seq<Cell>)
  {
    && |police| == PoliceCount
    && |lights| == LightCount
    && Distinct(police + lights)
    && forall c :: c in police + lights ==> c in Route && c !in HighDemandStops
  }

  /** Every light, and nothing else, has a state, red or green. */
  ghost predicate LightStatesFor(lights: seq<Cell>, states: map<Cell, int>)
  {
    && (forall c :: c in states <==> c in lights)
    && forall c :: c in states ==> states[c] == Red || states[c] == Green
  }

  /** Every high-demand stop, and nothing else, has 0..10 waiting passengers. */
  ghost predicate WaitingFor(waiting: map<Cell, int>)
  {
    && (forall c :: c in waiting <==> c in HighDemandStops)
    && forall c :: c in waiting ==> 0 <= waiting[c] <= MaxSeeded
  }

  /** The invariant of a reset environment. */
  ghost predicate Valid(s: EnvState)
  {
    && 0 <= s.stepCount
    && s.lightCycle == s.stepCount
    && 0 <= s.posIdx < |Route|
    && 0 <= s.passengers <= PhysicalMax
    && 0 <= s.speed <= TopSpeed
    && 0 <= s.money && s.money % Fare == 0
    && HazardsPlaced(s.police, s.lights)
    && LightStatesFor(s.lights, s.lightStates)
    && WaitingFor(s.waiting)
  }

  /** No high-demand stop is ever a place where the bus must stop. */
  lemma StopsAreSafe(s: EnvState, c: Cell)
    requires Valid(s) && c in HighDemandStops
    ensures !MustStop(s, c)
  {
    assert c !in s.police + s.lights;
  }

  // ---------------------------------------------------------------------------
  // Reset

  /** The random draws a reset consumes: seven distinct indices into the pool
      of available cells (`np.random.choice(..., 7, replace=False)`), four
      light states in {0, 1} (`np.random.randint(0, 2)`) and, per stop, a
      passenger count in 0..10 (`hash(stop) % 11`). */
  predicate ResetDraws(sampled: seq<int>, lightDraws: seq<int>, stopSeeds: seq<int>)
  {
    var pool := |Available(Route)|;
    && |sampled| == PoliceCount + LightCount
    && Distinct(sampled)
    && (forall i :: 0 <= i < |sampled| ==> 0 <= sampled[i] < pool)
    && |lightDraws| == LightCount
    && (forall i :: 0 <= i < |lightDraws| ==> lightDraws[i] == Red || lightDraws[i] == Green)
    && |stopSeeds| == |HighDemandStops|
    && forall i :: 0 <= i < |stopSeeds| ==> 0 <= stopSeeds[i] <= MaxSeeded
  }

  /** The cells chosen by `sampled`. */
  function Picked(avail: seq<Cell>, sampled: seq<int>): (r: seq<Cell>)
    requires forall i :: 0 <= i < |sampled| ==> 0 <= sampled[i] < |avail|
    ensures |r| == |sampled|
    ensures forall c :: c in r ==> c in avail
    ensures Distinct(avail) && Distinct(sampled) ==> Distinct(r)
  {
    seq(|sampled|, i requires 0 <= i < |sampled| => avail[sampled[i]])
  }

  /** The passengers waiting at each stop after a reset. */
  function SeedStops(stopSeeds: seq<int>): (w: map<Cell, int>)
    requires |stopSeeds| == |HighDemandStops|
    ensures forall i :: 0 <= i < |HighDemandStops| ==> HighDemandStops[i] in w && w[HighDemandStops[i]] == stopSeeds[i]
    ensures forall c :: c in w <==> c in HighDemandStops
  {
    map i | 0 <= i < |HighDemandStops| :: HighDemandStops[i] := stopSeeds[i]
  }

  /** The light states drawn for `lights`, one draw per light, built the way
      a dictionary comprehension builds them: a repeated cell keeps its last
      draw. */
  function DrawLightStates(lights: seq<Cell>, lightDraws: seq<int>): (m: map<Cell, int>)
    requires |lights| == |lightDraws|
    ensures forall c :: c in m <==> c in lights
    ensures Distinct(lights) ==> forall i :: 0 <= i < |lights| ==> m[lights[i]] == lightDraws[i]
    decreases |lights|
  {
    if lights == [] then map[]
    else
      var n := |lights| - 1;
      var m := DrawLightStates(lights[..n], lightDraws[..n]);
      assert forall c :: c in lights <==> c in lights[..n] || c == lights[n];
      m[lights[n] := lightDraws[n]]
  }

  lemma DistinctSplit<T>(s: seq<T>, k: int)
    requires Distinct(s) && 0 <= k <= |s|
    ensures Distinct(s[..k]) && Distinct(s[k..])
  {
  }

  /** The state after `reset()`, given the random draws. */
  function ResetState(prev: EnvState, sampled: seq<int>, lightDraws: seq<int>, stopSeeds: seq<int>): (s: EnvState)
    requires ResetDraws(sampled, lightDraws, stopSeeds)
    ensures s.stepCount == 0 && s.passengers == 0 && s.money == 0 && s.posIdx == 0
    ensures s.speed == 0 && !s.fined && s.lightCycle == 0
  {
    var avail := Available(Route);
    var picked := Picked(avail, sampled);
    var placed := |avail| >= PoliceCount + LightCount;
    var police := if placed then picked[..PoliceCount] else prev.police;
    var lights := if placed then picked[PoliceCount..] else prev.lights;
    var states := if placed then DrawLightStates(lights, lightDraws) else prev.lightStates;
    EnvState(0, 0, 0, 0, 0, false, 0, police, lights, states, SeedStops(stopSeeds))
  }

  /** A reset leaves a valid environment: seven distinct hazards off the
      stops, each light with its drawn state, each stop with its seed. */
  lemma ResetStateValid(prev: EnvState, sampled: seq<int>, lightDraws: seq<int>, stopSeeds: seq<int>)
    requires ResetDraws(sampled, lightDraws, stopSeeds)
    ensures var s := ResetState(prev, sampled, lightDraws, stopSeeds);
      && Valid(s)
      && (forall i :: 0 <= i < LightCount ==> s.lightStates[s.lights[i]] == lightDraws[i])
      && (forall i :: 0 <= i < |HighDemandStops| ==> s.waiting[HighDemandStops[i]] == stopSeeds[i])
  {
    var s := ResetState(prev, sampled, lightDraws, stopSeeds);
    ResetStateParts(prev, sampled, lightDraws, stopSeeds);
    SampledHazardsPlaced(sampled);
    DrawnStatesValid(s.lights, lightDraws);
    SeededStopsValid(stopSeeds);
  }

  /** The sampled cells make seven distinct hazards off the stops. */
  lemma SampledHazardsPlaced(sampled: seq<int>)
    requires |sampled| == PoliceCount + LightCount && Distinct(sampled)
    requires forall i :: 0 <= i < |sampled| ==> 0 <= sampled[i] < |Available(Route)|
    ensures var picked := Picked(Available(Route), sampled);
      HazardsPlaced(picked[..PoliceCount], picked[PoliceCount..]) && Distinct(picked[PoliceCount..])
  {
    RouteDistinct();
    var picked := Picked(Available(Route), sampled);
    assert picked[..PoliceCount] + picked[PoliceCount..] == picked;
    DistinctSplit(picked, PoliceCount);
  }

  /** Drawing red or green for distinct lights gives every light, and
      nothing else, a red or green state. */
  lemma DrawnStatesValid(lights: seq<Cell>, lightDraws: seq<int>)
    requires |lights| == |lightDraws| && Distinct(lights)
    requires forall i :: 0 <= i < |lightDraws| ==> lightDraws[i] == Red || lightDraws[i] == Green
    ensures LightStatesFor(lights, DrawLightStates(lights, lightDraws))
  {
    var m := DrawLightStates(lights, lightDraws);
    forall c | c in m
      ensures m[c] == Red || m[c] == Green
    {
      var i :| 0 <= i < |lights| && lights[i] == c;
      assert m[lights[i]] == lightDraws[i];
    }
  }

  /** Seeding the stops gives every stop, and nothing else, 0..10 waiting. */
  lemma SeededStopsValid(stopSeeds: seq<int>)
    requires |stopSeeds| == |HighDemandStops|
    requires forall i :: 0 <= i < |stopSeeds| ==> 0 <= stopSeeds[i] <= MaxSeeded
    ensures WaitingFor(SeedStops(stopSeeds))
  {
    var w := SeedStops(stopSeeds);
    forall c | c in w
      ensures 0 <= w[c] <= MaxSeeded
    {
      var i :| 0 <= i < |HighDemandStops| && HighDemandStops[i] == c;
      assert w[HighDemandStops[i]] == stopSeeds[i];
    }
  }

  /** The hazards and stop counts of `ResetState`, spelled out for the
      imperative reset. */
  lemma ResetStateParts(prev: EnvState, sampled: seq<int>, lightDraws: seq<int>, stopSeeds: seq<int>)
    requires ResetDraws(sampled, lightDraws, stopSeeds)
    ensures var s := ResetState(prev, sampled, lightDraws, stopSeeds);
      var picked := Picked(Available(Route), sampled);
      && |Available(Route)| >= PoliceCount + LightCount
      && s == EnvState(0, 0, 0, 0, 0, false, 0, picked[..PoliceCount], picked[PoliceCount..],
                       s.lightStates, SeedStops(stopSeeds))
      && s.lightStates == DrawLightStates(picked[PoliceCount..], lightDraws)
  {
    AvailableSize();
  }

  // ---------------------------------------------------------------------------
  // Step

  /** Passengers boarding at a stop: at least three or everyone waiting,
      whichever is more, but no more than the seats left. */
  function PickupAmount(passengers: int, waitingHere: int): (add: int)
    requires passengers < PhysicalMax
    ensures 0 < add <= PhysicalMax - passengers
    ensures add == PhysicalMax - passengers || (add >= 3 && add >= waitingHere)
    ensures add <= 3 || add <= waitingHere
  {
    Min(Max(3, waitingHere), PhysicalMax - passengers)
  }

  /** Passengers leaving at a stop: everyone when at most three ride,
      otherwise all but (passengers - 1) / 2 of them. */
  function DropAmount(passengers: int): (drop: int)
    requires 0 < passengers
    ensures 0 < drop <= passengers
    ensures passengers <= 3 ==> drop == passengers
    ensures passengers > 3 ==> passengers - drop == (passengers - 1) / 2
  {
    Min(passengers, Max(3, passengers / 2 + 1))
  }

  /** What an action changes, its reward, and whether it crashed the bus. */
  datatype Outcome = Outcome(state: EnvState, reward: int, terminated: bool)

  /** Scores `action` against the hazards of `here`, the cell before the move. */
  function Act(s: EnvState, here: Cell, action: int): (o: Outcome)
    ensures o.state.stepCount == s.stepCount && o.state.posIdx == s.posIdx && o.state.fined == s.fined
    ensures o.state.police == s.police && o.state.lights == s.lights && o.state.lightStates == s.lightStates
    ensures o.state.lightCycle == s.lightCycle
  {
    var must := MustStop(s, here);
    var atStop := here in HighDemandStops;
    var hazard := if must then 10 else 0;
    if action == Move then
      Outcome(s, 2 - (if must then 40 else 0), false)
    else if action == Pickup then
      if atStop && s.passengers < PhysicalMax then
        var add := PickupAmount(s.passengers, WaitingAt(s, here));
        var waiting := if here in s.waiting then s.waiting[here := Max(0, s.waiting[here] - add)] else s.waiting;
        Outcome(s.(passengers := s.passengers + add, waiting := waiting), 15 - hazard, false)
      else
        Outcome(s, -5 - hazard, false)
    else if action == Dropoff then
      if atStop && s.passengers > 0 then
        var drop := DropAmount(s.passengers);
        Outcome(s.(passengers := s.passengers - drop, money := s.money + drop * Fare), 12 - hazard, false)
      else
        Outcome(s, -8 - hazard, false)
    else if action == Stop then
      Outcome(s.(speed := Max(0, s.speed - 1)), if must then 25 else -3, false)
    else if action == SpeedUp then
      if !must && s.passengers <= OverloadMax then
        Outcome(s.(speed := Min(s.speed + 1, TopSpeed)), 3, false)
      else
        Outcome(s, (if must then -15 else 0) + (if s.passengers > OverloadMax then -30 else 0), s.passengers > OverloadMax)
    else
      Outcome(s, 0, false)
  }

  /** The police rules at the cell the bus has moved to. */
  function PoliceCheck(o: Outcome): (p: Outcome)
    requires 0 <= o.state.posIdx < |Route|
    ensures p.state == o.state.(fined := p.state.fined)
    ensures o.terminated ==> p.terminated
    ensures var landed := Route[o.state.posIdx] in o.state.police;
      && p.reward == o.reward - (if !landed then 0 else if o.state.passengers > OverloadMax then 50
                                 else if o.state.passengers > LegalMax then 20 else 0)
      && (p.state.fined <==> o.state.fined || (landed && o.state.passengers > LegalMax))
      && (p.terminated <==> o.terminated || (landed && o.state.passengers > OverloadMax))
  {
    if Route[o.state.posIdx] in o.state.police then
      if o.state.passengers > OverloadMax then
        Outcome(o.state.(fined := true), o.reward - 50, true)
      else if o.state.passengers > LegalMax then
        Outcome(o.state.(fined := true), o.reward - 20, o.terminated)
      else o
    else o
  }

  /** The bonus of the last phase of a step: 100 when the episode ends, and 50
      more when it ends unfined and within the legal capacity. */
  function CompletionBonus(terminated: bool, passengers: int, fined: bool): (b: int)
    ensures !terminated ==> b == 0
    ensures terminated ==> (b == 150 <==> passengers <= LegalMax && !fined) && (b == 100 || b == 150)
  {
    if terminated then 100 + (if passengers <= LegalMax && !fined then 50 else 0) else 0
  }

  datatype StepResult = StepResult(next: EnvState, reward: int, terminated: bool, truncated: bool)

  /** The automatic move of a step: the clock ticks and the bus advances one
      cell unless it is already on the last one. */
  function Advance(s: EnvState): (m: EnvState)
    requires 0 <= s.posIdx < |Route|
    ensures m == s.(stepCount := m.stepCount, lightCycle := m.lightCycle, posIdx := m.posIdx)
    ensures m.stepCount == s.stepCount + 1 && m.lightCycle == s.lightCycle + 1
    ensures m.posIdx == Min(s.posIdx + 1, |Route| - 1)
  {
    s.(stepCount := s.stepCount + 1, lightCycle := s.lightCycle + 1,
       posIdx := if s.posIdx < |Route| - 1 then s.posIdx + 1 else s.posIdx)
  }

  /** One call of `step(action)`: move one cell, score the action against the
      cell left behind, apply the police rules at the cell reached, add the
      progress and completion rewards, and flag truncation. */
  function Transition(s: EnvState, action: int): (r: StepResult)
    requires 0 <= s.posIdx < |Route|
    ensures r.next.stepCount == s.stepCount + 1 && r.next.lightCycle == s.lightCycle + 1
    ensures r.next.posIdx == Min(s.posIdx + 1, |Route| - 1)
    ensures s.posIdx == |Route| - 1 ==> r.terminated
    ensures r.truncated <==> r.next.stepCount >= MaxSteps
    ensures s.fined ==> r.next.fined
    ensures r.next.money >= s.money
    ensures r.next.police == s.police && r.next.lights == s.lights && r.next.lightStates == s.lightStates
  {
    var acted := Act(Advance(s), Route[s.posIdx], action);
    var checked := PoliceCheck(Outcome(acted.state, acted.reward, s.posIdx == |Route| - 1 || acted.terminated));
    Finish(checked)
  }

  /** The last phases of a step: the progress reward, the completion bonus
      and the truncation flag. */
  function Finish(checked: Outcome): (r: StepResult)
    ensures r.next == checked.state && r.terminated == checked.terminated
    ensures r.reward - checked.reward - 1
            == CompletionBonus(checked.terminated, checked.state.passengers, checked.state.fined)
    ensures r.truncated <==> checked.state.stepCount >= MaxSteps
  {
    var bonus := CompletionBonus(checked.terminated, checked.state.passengers, checked.state.fined);
    StepResult(checked.state, checked.reward + 1 + bonus, checked.terminated, checked.state.stepCount >= MaxSteps)
  }

  /** A step keeps the environment valid. */
  lemma StepKeepsValid(s: EnvState, action: int)
    requires Valid(s)
    ensures Valid(Transition(s, action).next)
  {
    ActKeepsValid(Advance(s), Route[s.posIdx], action);
  }

  lemma ActKeepsValid(s: EnvState, here: Cell, action: int)
    requires Valid(s)
    ensures Valid(Act(s, here, action).state)
  {
    var o := Act(s, here, action);
    if action == Pickup && here in HighDemandStops && s.passengers < PhysicalMax {
      assert WaitingFor(o.state.waiting);
    } else if action == Dropoff && here in HighDemandStops && s.passengers > 0 {
      var drop := DropAmount(s.passengers);
      assert o.state.money == s.money + drop * Fare;
      assert (s.money + drop * Fare) % Fare == 0;
    }
  }

  // ---------------------------------------------------------------------------
  // Properties of one step

  /** A pickup at a stop with free seats boards between one passenger and the
      seats left, and lowers that stop's waiting count by as many, never below
      zero; anywhere else nobody boards. Money and other stops are untouched. */
  lemma PickupEffect(s: EnvState)
    requires Valid(s)
    ensures var here := Route[s.posIdx];
      var r := Transition(s, Pickup);
      var add := r.next.passengers - s.passengers;
      && r.next.money == s.money && r.next.speed == s.speed
      && (forall c :: c in s.waiting && c != here ==> c in r.next.waiting && r.next.waiting[c] == s.waiting[c])
      && if here in HighDemandStops && s.passengers < PhysicalMax then
           && 0 < add <= PhysicalMax - s.passengers
           && add >= Min(3, PhysicalMax - s.passengers)
           && here in r.next.waiting && r.next.waiting[here] == Max(0, s.waiting[here] - add)
         else add == 0 && r.next.waiting == s.waiting
  {
  }

  /** A dropoff at a stop with riders lets off between one passenger and all of
      them and earns 1000 per passenger; anywhere else nothing changes. */
  lemma DropoffEffect(s: EnvState)
    requires Valid(s)
    ensures var here := Route[s.posIdx];
      var r := Transition(s, Dropoff);
      var drop := s.passengers - r.next.passengers;
      && r.next.waiting == s.waiting && r.next.speed == s.speed
      && r.next.money == s.money + drop * Fare
      && if here in HighDemandStops && s.passengers > 0 then 0 < drop <= s.passengers else drop == 0
  {
  }

  /** Only Pickup and Dropoff change the load, only Dropoff the money, only
      Stop and SpeedUp the speed. Stop slows by one down to 0; SpeedUp speeds
      up by one up to 3, only away from hazards and with at most 40 aboard. */
  lemma SpeedAndLoadEffect(s: EnvState, action: int)
    requires Valid(s)
    ensures var here := Route[s.posIdx];
      var r := Transition(s, action);
      && (action != Pickup && action != Dropoff ==> r.next.passengers == s.passengers && r.next.waiting == s.waiting)
      && (action != Dropoff ==> r.next.money == s.money)
      && (action == Stop ==> r.next.speed == Max(0, s.speed - 1))
      && (action == SpeedUp ==>
            r.next.speed == if !MustStop(s, here) && s.passengers <= OverloadMax then Min(s.speed + 1, TopSpeed) else s.speed)
      && (action != Stop && action != SpeedUp ==> r.next.speed == s.speed)
  {
  }

  /** Speeding up with more than 40 aboard crashes the bus. */
  lemma OverloadedSpeedUpCrashes(s: EnvState)
    requires Valid(s) && s.passengers > OverloadMax
    ensures Transition(s, SpeedUp).terminated
  {
  }

  /** Reaching a police checkpoint with more than 40 aboard is fined and ends
      the episode; with 34 to 40 aboard it is fined only. */
  lemma PoliceRules(s: EnvState, action: int)
    requires Valid(s)
    ensures var r := Transition(s, action);
      var landed := Route[r.next.posIdx] in s.police;
      && (landed && r.next.passengers > OverloadMax ==> r.next.fined && r.terminated)
      && (landed && LegalMax < r.next.passengers ==> r.next.fined)
      && (!s.fined && !(landed && r.next.passengers > LegalMax) ==> !r.next.fined)
  {
  }

  /** The episode ends exactly when the bus was already at the last cell,
      crashed by speeding up overloaded, or reached police overloaded. */
  lemma TerminationCauses(s: EnvState, action: int)
    requires Valid(s)
    ensures var r := Transition(s, action);
      var landed := Route[r.next.posIdx] in s.police;
      r.terminated <==>
        || s.posIdx == |Route| - 1
        || (action == SpeedUp && s.passengers > OverloadMax)
        || (landed && r.next.passengers > OverloadMax)
  {
  }

  /** The reward of a step is the action's score against the cell left
      behind, less the police penalty at the cell reached (50 when more than
      40 ride, 20 when 34 to 40 ride), plus 1 for progress and the completion
      bonus when the step ends the episode. */
  lemma RewardParts(s: EnvState, action: int)
    requires 0 <= s.posIdx < |Route|
    ensures var r := Transition(s, action);
      var score := Act(Advance(s), Route[s.posIdx], action).reward;
      var landed := Route[r.next.posIdx] in s.police;
      var penalty := if !landed then 0 else if r.next.passengers > OverloadMax then 50
                     else if r.next.passengers > LegalMax then 20 else 0;
      r.reward == score - penalty + 1 + CompletionBonus(r.terminated, r.next.passengers, r.next.fined)
  {
  }

  /** At a cell where the bus must stop, and with no crash possible, stopping
      earns strictly more than any other action: the cell is no stop, so no
      action changes the load, and the police and completion terms agree. */
  lemma StopIsBestAtHazard(s: EnvState, action: int)
    requires Valid(s) && MustStop(s, Route[s.posIdx]) && s.passengers <= OverloadMax
    requires action != Stop
    ensures Transition(s, Stop).reward > Transition(s, action).reward
  {
    var here := Route[s.posIdx];
    if here in HighDemandStops {
      StopsAreSafe(s, here);
    }
    var m := Advance(s);
    var stop, other := Act(m, here, Stop), Act(m, here, action);
    assert stop.reward == 25 && other.reward <= 0;
    assert stop.state.passengers == other.state.passengers == s.passengers;
    assert !stop.terminated && !other.terminated;
  }

  /** Every step's reward lies between -57 (running a hazard into a
      capacity fine) and 176 (stopping at a hazard on the final step of a
      legal, unfined run). */
  lemma RewardBounds(s: EnvState, action: int)
    requires Valid(s)
    ensures -57 <= Transition(s, action).reward <= 176
  {
    var here := Route[s.posIdx];
    var o := Act(Advance(s), here, action);
    assert -45 <= o.reward <= 25;
    assert o.reward < -38 ==> o.terminated;
  }

  /** The completion bonus is paid for every end of an episode, including a
      crash: speeding up with more than 40 aboard on a clear cell, with no
      police ahead, earns -30 + 1 + 100 = 71. */
  lemma CrashCollectsArrivalBonus(s: EnvState)
    requires Valid(s) && s.passengers > OverloadMax && s.posIdx < |Route| - 1
    requires !MustStop(s, Route[s.posIdx]) && Route[s.posIdx + 1] !in s.police
    ensures Transition(s, SpeedUp).terminated && Transition(s, SpeedUp).reward == 71
  {
  }

  // ---------------------------------------------------------------------------
  // Episodes

  /** The state after taking `actions` one after another. */
  function Run(s: EnvState, actions: seq<int>): (t: EnvState)
    requires 0 <= s.posIdx < |Route|
    ensures 0 <= t.posIdx < |Route|
    decreases |actions|
  {
    if actions == [] then s else Run(Transition(s, actions[0]).next, actions[1..])
  }

  /** Every state of a run from a valid state is valid. */
  lemma {:induction false} RunKeepsValid(s: EnvState, actions: seq<int>)
    requires Valid(s)
    ensures Valid(Run(s, actions))
    decreases |actions|
  {
    if actions != [] {
      StepKeepsValid(s, actions[0]);
      RunKeepsValid(Transition(s, actions[0]).next, actions[1..]);
    }
  }

  /** Over any run the step count grows by one per step, the bus advances one
      cell per step up to the last cell, money never falls, a fine is never
      lifted and the hazards stay where they were put. */
  lemma {:induction false} RunProgress(s: EnvState, actions: seq<int>)
    requires 0 <= s.posIdx < |Route|
    ensures var t := Run(s, actions);
      && t.stepCount == s.stepCount + |actions|
      && t.posIdx == Min(s.posIdx + |actions|, |Route| - 1)
      && t.money >= s.money
      && (s.fined ==> t.fined)
      && t.police == s.police && t.lights == s.lights && t.lightStates == s.lightStates
    decreases |actions|
  {
    if actions != [] {
      RunProgress(Transition(s, actions[0]).next, actions[1..]);
    }
  }

  /** Run splits at any point. */
  lemma {:induction false} RunAppend(s: EnvState, a: seq<int>, b: seq<int>)
    requires 0 <= s.posIdx < |Route|
    ensures Run(s, a + b) == Run(Run(s, a), b)
    decreases |a|
  {
    if a == [] {
      assert a + b == b;
    } else {
      assert (a + b)[1..] == a[1..] + b;
      RunAppend(Transition(s, a[0]).next, a[1..], b);
    }
  }

  /** From the start of the route, whatever the actions, the 29th step ends
      the episode. */
  lemma EpisodeEndsAtLastCell(s: EnvState, actions: seq<int>)
    requires s.posIdx == 0 && |actions| >= |Route|
    ensures Transition(Run(s, actions[..|Route| - 1]), actions[|Route| - 1]).terminated
  {
    RunProgress(s, actions[..|Route| - 1]);
  }

  /** From a reset, the 350th step is the first one flagged truncated. */
  lemma TruncatedAtBudget(s: EnvState, actions: seq<int>)
    requires 0 <= s.posIdx < |Route| && s.stepCount == 0 && |actions| >= 1
    ensures Transition(Run(s, actions[..|actions| - 1]), actions[|actions| - 1]).truncated
            <==> |actions| >= MaxSteps
  {
    RunProgress(s, actions[..|actions| - 1]);
  }

  /** The fares earned plus a fare for every passenger aboard stay within
      ten fares per stop passed: each stop is left behind once, and a
      pickup there boards at most ten. */
  predicate EarningsWithin(s: EnvState)
  {
    s.money + Fare * s.passengers <= Fare * MaxSeeded * StopsBefore(s.posIdx)
  }

  lemma StepKeepsEarningsWithin(s: EnvState, action: int)
    requires Valid(s) && EarningsWithin(s)
    ensures EarningsWithin(Transition(s, action).next)
  {
    var here := Route[s.posIdx];
    StopAt(s.posIdx);
    var t := Transition(s, action).next;
    assert StopsBefore(t.posIdx) == StopsBefore(s.posIdx) + (if here in HighDemandStops then 1 else 0);
    if action == Pickup && here in HighDemandStops && s.passengers < PhysicalMax {
      PickupEffect(s);
      assert t.passengers - s.passengers <= MaxSeeded;
    } else if action == Dropoff {
      DropoffEffect(s);
    } else {
      PickupEffect(s);
      SpeedAndLoadEffect(s, action);
    }
  }

  lemma {:induction false} RunKeepsEarningsWithin(s: EnvState, actions: seq<int>)
    requires Valid(s) && EarningsWithin(s)
    ensures EarningsWithin(Run(s, actions))
    decreases |actions|
  {
    if actions != [] {
      StepKeepsEarningsWithin(s, actions[0]);
      StepKeepsValid(s, actions[0]);
      RunKeepsEarningsWithin(Transition(s, actions[0]).next, actions[1..]);
    }
  }

  /** However long the agent keeps stepping after a reset, the money stays
      within 40000: ten fares for each of the four stops. */
  lemma MoneyBoundedAfterReset(prev: EnvState, sampled: seq<int>, lightDraws: seq<int>, stopSeeds: seq<int>,
                               actions: seq<int>)
    requires ResetDraws(sampled, lightDraws, stopSeeds)
    ensures var t := Run(ResetState(prev, sampled, lightDraws, stopSeeds), actions);
      0 <= t.money <= Fare * MaxSeeded * |HighDemandStops|
  {
    var s := ResetState(prev, sampled, lightDraws, stopSeeds);
    ResetStateValid(prev, sampled, lightDraws, stopSeeds);
    RunKeepsEarningsWithin(s, actions);
    RunKeepsValid(s, actions);
  }

  /** The completion bonus as its purpose describes it: paid for reaching the
      destination, that is, for a step that starts on the last route cell. */
  function ArrivalReward(s: EnvState, action: int): (reward: int)
    requires 0 <= s.posIdx < |Route|
  {
    var r := Transition(s, action);
    r.reward - CompletionBonus(r.terminated, r.next.passengers, r.next.fined)
      + CompletionBonus(s.posIdx == |Route| - 1, r.next.passengers, r.next.fined)
  }

  /** The corrected reward agrees with the written one on the step that
      reaches the destination and pays no bonus on any earlier step, however
      that step ends. */
  lemma ArrivalRewardOnlyAtDestination(s: EnvState, action: int)
    requires 0 <= s.posIdx < |Route|
    ensures s.posIdx == |Route| - 1 ==> ArrivalReward(s, action) == Transition(s, action).reward
    ensures var r := Transition(s, action);
      var landed := Route[r.next.posIdx] in s.police;
      var penalty := if !landed then 0 else if r.next.passengers > OverloadMax then 50
                     else if r.next.passengers > LegalMax then 20 else 0;
      s.posIdx < |Route| - 1 ==>
        ArrivalReward(s, action) == Act(Advance(s), Route[s.posIdx], action).reward - penalty + 1
  {
    RewardParts(s, action);
  }

  /** Under the corrected bonus an overloaded crash on a clear cell costs
      -30 + 1 = -29 instead of earning 71. */
  lemma CrashEarnsNoArrivalBonus(s: EnvState)
    requires Valid(s) && s.passengers > OverloadMax && s.posIdx < |Route| - 1
    requires !MustStop(s, Route[s.posIdx]) && Route[s.posIdx + 1] !in s.police
    ensures Transition(s, SpeedUp).terminated && ArrivalReward(s, SpeedUp) == -29
  {
    ArrivalRewardOnlyAtDestination(s, SpeedUp);
  }

  // ---------------------------------------------------------------------------
  // Observation

  /** Route cell `i` exists and holds one of `hazards`. */
  predicate HazardAt(hazards: seq<Cell>, i: int)
  {
    0 <= i < |Route| && Route[i] in hazards
  }

  /** `d` is the distance to the first of `hazards` among the next four route
      cells after `pos`, or 5 when there is none. */
  predicate IsLookahead(pos: int, hazards: seq<Cell>, d: int)
  {
    && 1 <= d <= Window
    && (forall i :: pos < i < pos + d ==> !HazardAt(hazards, i))
    && (d < Window ==> HazardAt(hazards, pos + d))
  }

  lemma LookaheadUnique(pos: int, hazards: seq<Cell>, d1: int, d2: int)
    requires IsLookahead(pos, hazards, d1) && IsLookahead(pos, hazards, d2)
    ensures d1 == d2
  {
  }

  /** The lookahead scanned from distance `d` on: the first distance below 5
      whose cell holds a hazard, else 5. */
  function FirstHazard(pos: int, hazards: seq<Cell>, d: int): (r: int)
    requires 1 <= d <= Window
    ensures d <= r <= Window
    decreases Window - d
  {
    if d == Window || HazardAt(hazards, pos + d) then d else FirstHazard(pos, hazards, d + 1)
  }

  /** The scan finds the first hazard and nothing before it: its result is
      the one distance that `IsLookahead` allows. */
  lemma {:induction false} FirstHazardIsLookahead(pos: int, hazards: seq<Cell>, d: int)
    requires 1 <= d <= Window
    requires forall i :: pos < i < pos + d ==> !HazardAt(hazards, i)
    ensures IsLookahead(pos, hazards, FirstHazard(pos, hazards, d))
    decreases Window - d
  {
    if d < Window && !HazardAt(hazards, pos + d) {
      FirstHazardIsLookahead(pos, hazards, d + 1);
    }
  }

  /** Past the last route cell there is nothing to find. */
  lemma {:induction false} FirstHazardPastEnd(pos: int, hazards: seq<Cell>, d: int)
    requires 1 <= d <= Window && pos + d >= |Route|
    ensures FirstHazard(pos, hazards, d) == Window
    decreases Window - d
  {
    if d < Window {
      FirstHazardPastEnd(pos, hazards, d + 1);
    }
  }

  /** The lookahead loop of the observation: the distance to the next cell
      holding one of `hazards` within the next five cells, 5 if none. */
  method DistanceAhead(pos: int, hazards: seq<Cell>) returns (d: int)
    requires 0 <= pos
    ensures d == FirstHazard(pos, hazards, 1)
  {
    d := Window;
    var i := pos + 1;
    var bound := Min(pos + Window + 1, |Route|);
    while i < bound
      invariant pos + 1 <= i <= pos + Window + 1
      invariant i <= bound || i == pos + 1
      invariant i - pos <= Window ==> FirstHazard(pos, hazards, 1) == FirstHazard(pos, hazards, i - pos)
      invariant i - pos > Window ==> FirstHazard(pos, hazards, 1) == Window
    {
      if Route[i] in hazards {
        d := i - pos;
        return;
      }
      i := i + 1;
    }
    if i - pos <= Window {
      FirstHazardPastEnd(pos, hazards, i - pos);
    }
  }

  /** The integer quantities behind the 14 entries of the observation vector. */
  datatype Observation = Observation(
    x: int, y: int,
    passengers: int, money: int, speed: int,
    lightRed: int, policeHere: bool, mustStopNow: bool,
    atStop: bool, waiting: int,
    mustStopNext: bool,
    distToLight: int, distToPolice: int,
    stepCount: int)

  /** `o` describes state `s`: its cell, the hazards there and one cell
      ahead, the passengers waiting when at a stop, and the lookahead. */
  predicate Describes(o: Observation, s: EnvState)
    requires 0 <= s.posIdx
  {
    var here := if s.posIdx >= |Route| then Cell(14, 0) else Route[s.posIdx];
    var ahead := Route[Min(s.posIdx + 1, |Route| - 1)];
    && o.x == here.x && o.y == here.y
    && o.passengers == s.passengers && o.money == s.money && o.speed == s.speed
    && o.lightRed == LightAt(s, here)
    && (o.policeHere <==> here in s.police)
    && (o.mustStopNow <==> MustStop(s, here))
    && (o.atStop <==> here in HighDemandStops)
    && o.waiting == (if here in HighDemandStops then WaitingAt(s, here) else 0)
    && (o.mustStopNext <==> MustStop(s, ahead))
    && o.distToLight == FirstHazard(s.posIdx, s.lights, 1)
    && o.distToPolice == FirstHazard(s.posIdx, s.police, 1)
    && o.stepCount == s.stepCount
  }

  /** `_get_obs`, read off a snapshot of the environment's fields. */
  method ObserveState(s: EnvState) returns (o: Observation)
    requires 0 <= s.posIdx
    ensures Describes(o, s)
  {
    var here := if s.posIdx >= |Route| then Cell(14, 0) else Route[s.posIdx];
    var lightIsRed := if here in s.lightStates then s.lightStates[here] else Green;
    var policeHere := here in s.police;
    var mustStopNow := lightIsRed != Green || policeHere;
    var ahead := Route[Min(s.posIdx + 1, |Route| - 1)];
    var nextLightIsRed := if ahead in s.lightStates then s.lightStates[ahead] else Green;
    var mustStopNext := nextLightIsRed != Green || ahead in s.police;
    var atStop := here in HighDemandStops;
    var waitingHere := if atStop && here in s.waiting then s.waiting[here] else 0;
    var distToLight := DistanceAhead(s.posIdx, s.lights);
    var distToPolice := DistanceAhead(s.posIdx, s.police);
    o := Observation(here.x, here.y, s.passengers, s.money, s.speed, lightIsRed, policeHere, mustStopNow,
                     atStop, waitingHere, mustStopNext, distToLight, distToPolice, s.stepCount);
  }

  /** In a reset environment every observed quantity lies in the range its
      normalisation assumes. */
  lemma ObservationRanges(o: Observation, s: EnvState)
    requires Valid(s) && Describes(o, s)
    ensures 0 <= o.x <= 14 && 0 <= o.y <= 14
    ensures 0 <= o.passengers <= PhysicalMax && 0 <= o.speed <= TopSpeed
    ensures o.lightRed == Red || o.lightRed == Green
    ensures 0 <= o.waiting <= MaxSeeded
    ensures 1 <= o.distToLight <= Window && 1 <= o.distToPolice <= Window
    ensures o.atStop ==> !o.mustStopNow
  {
    RouteAt(s.posIdx);
    if o.atStop {
      StopsAreSafe(s, Route[s.posIdx]);
    }
  }

  // ---------------------------------------------------------------------------
  // The environment object

  class Env {
    var stepCount: int
    var passengers: int
    var money: int
    var posIdx: int
    var speed: int
    var fined: bool
    var lightCycle: int
    var police: seq<Cell>
    var lights: seq<Cell>
    var lightStates: map<Cell, int>
    var waiting: map<Cell, int>

    function State(): EnvState
      reads this
    {
      EnvState(stepCount, passengers, money, posIdx, speed, fined, lightCycle,
               police, lights, lightStates, waiting)
    }

    /** `__init__`: no hazards yet, and the light cycle at 0. */
    constructor ()
      ensures police == [] && lights == [] && lightStates == map[] && lightCycle == 0
    {
      police := [];
      lights := [];
      lightStates := map[];
      lightCycle := 0;
    }

    /** `_get_obs`. */
    method Observe() returns (o: Observation)
      requires 0 <= posIdx
      ensures Describes(o, State())
    {
      o := ObserveState(State());
    }

    /** `reset()`, with its random draws given as arguments. */
    method Reset(sampled: seq<int>, lightDraws: seq<int>, stopSeeds: seq<int>) returns (obs: Observation)
      requires ResetDraws(sampled, lightDraws, stopSeeds)
      modifies this
      ensures State() == ResetState(old(State()), sampled, lightDraws, stopSeeds)
      ensures Valid(State())
      ensures Describes(obs, State())
    {
      Reinitialise(sampled, lightDraws, stopSeeds);
      ResetStateValid(old(State()), sampled, lightDraws, stopSeeds);
      obs := Observe();
    }

    /** The field assignments of `reset()`: counters back to zero, hazards
        placed on the sampled cells, lights and stops seeded. */
    method Reinitialise(sampled: seq<int>, lightDraws: seq<int>, stopSeeds: seq<int>)
      requires ResetDraws(sampled, lightDraws, stopSeeds)
      modifies this
      ensures State() == ResetState(old(State()), sampled, lightDraws, stopSeeds)
    {
      ClearCounters();
      PlaceHazards(sampled, lightDraws);
      waiting := SeedStops(stopSeeds);
      ResetStateParts(old(State()), sampled, lightDraws, stopSeeds);
    }

    /** The counters of `reset()`: no steps, no passengers, no money, the
        bus on the first cell at rest and unfined. */
    method ClearCounters()
      modifies this`stepCount, this`passengers, this`money, this`posIdx, this`speed, this`fined, this`lightCycle
      ensures stepCount == 0 && passengers == 0 && money == 0 && posIdx == 0
      ensures speed == 0 && !fined && lightCycle == 0
    {
      stepCount := 0;
      passengers := 0;
      money := 0;
      posIdx := 0;
      speed := 0;
      fined := false;
      lightCycle := 0;
    }

    /** The hazard placement of `reset()`: when the pool holds at least seven
        cells, the first three sampled cells get police and the other four
        traffic lights, each light with its drawn state. */
    method PlaceHazards(sampled: seq<int>, lightDraws: seq<int>)
      requires |sampled| == PoliceCount + LightCount && Distinct(sampled)
      requires forall i :: 0 <= i < |sampled| ==> 0 <= sampled[i] < |Available(Route)|
      requires |lightDraws| == LightCount
      modifies this`police, this`lights, this`lightStates
      ensures var picked := Picked(Available(Route), sampled);
        && police == picked[..PoliceCount] && lights == picked[PoliceCount..]
        && lightStates == DrawLightStates(lights, lightDraws)
    {
      var available := Available(Route);
      AvailableSize();
      if |available| >= PoliceCount + LightCount {
        var picked := Picked(available, sampled);
        police := picked[..PoliceCount];
        lights := picked[PoliceCount..];
        lightStates := DrawLightStates(lights, lightDraws);
      }
    }

    /** `step(action)`. */
    method Step(action: int) returns (obs: Observation, reward: int, terminated: bool, truncated: bool)
      requires Valid(State())
      modifies this
      ensures var r := Transition(old(State()), action);
        && State() == r.next
        && reward == r.reward && terminated == r.terminated && truncated == r.truncated
      ensures Valid(State())
      ensures Describes(obs, State())
    {
      StepKeepsValid(State(), action);
      var here := Route[posIdx];

      // Phase 1: the automatic move.
      terminated := MoveBus();

      // Phase 2: the action, scored against the cell before the move.
      var crashed;
      reward, crashed := ScoreAction(here, action);
      terminated := terminated || crashed;

      // Phase 3: the police rules at the cell reached.
      reward, terminated := CheckPolice(reward, terminated);

      // Phases 4 and 5: progress, completion and the step budget.
      reward, truncated := Conclude(reward, terminated);
      obs := Observe();
    }

    /** The automatic move of `step`; reports whether the bus was already on
        the last cell. */
    method MoveBus() returns (atEnd: bool)
      requires 0 <= posIdx < |Route|
      modifies this`stepCount, this`lightCycle, this`posIdx
      ensures State() == Advance(old(State()))
      ensures atEnd <==> old(posIdx) == |Route| - 1
    {
      stepCount := stepCount + 1;
      lightCycle := lightCycle + 1;
      atEnd := false;
      if posIdx < |Route| - 1 {
        posIdx := posIdx + 1;
      } else {
        atEnd := true;
      }
    }

    /** The progress reward, the completion bonus and the truncation flag. */
    method Conclude(reward0: int, terminated: bool) returns (reward: int, truncated: bool)
      ensures var r := Finish(Outcome(State(), reward0, terminated));
        reward == r.reward && truncated == r.truncated
    {
      reward := reward0 + 1;
      if terminated {
        reward := reward + 100;
        if passengers <= LegalMax && !fined {
          reward := reward + 50;
        }
      }
      truncated := stepCount >= MaxSteps;
    }

    /** The action phase of `step`: scores `action` against the hazards of
        `here` and applies its effect on load, money, speed and stops. */
    method ScoreAction(here: Cell, action: int) returns (reward: int, crashed: bool)
      modifies this
      ensures var o := Act(old(State()), here, action);
        State() == o.state && reward == o.reward && crashed == o.terminated
    {
      reward, crashed := 0, false;
      var lightIsRed := if here in lightStates then lightStates[here] else 0;
      var policeHere := here in police;
      var mustStopHere := lightIsRed != 0 || policeHere;
      var atStop := here in HighDemandStops;

      if action == Move {
        reward := reward + 2;
        if mustStopHere {
          reward := reward - 40;
        }
      } else if action == Pickup {
        if atStop && passengers < PhysicalMax {
          var baseAdd := Max(3, if here in waiting then waiting[here] else 0);
          var add := Min(baseAdd, PhysicalMax - passengers);
          passengers := passengers + add;
          reward := reward + 15;
          if here in waiting {
            waiting := waiting[here := Max(0, waiting[here] - add)];
          }
        } else {
          reward := reward - 5;
        }
        if mustStopHere {
          reward := reward - 10;
        }
      } else if action == Dropoff {
        if atStop && passengers > 0 {
          var drop := Min(passengers, Max(3, passengers / 2 + 1));
          passengers := passengers - drop;
          money := money + drop * Fare;
          reward := reward + 12;
        } else {
          reward := reward - 8;
        }
        if mustStopHere {
          reward := reward - 10;
        }
      } else if action == Stop {
        speed := Max(0, speed - 1);
        if mustStopHere {
          reward := reward + 25;
        } else {
          reward := reward - 3;
        }
      } else if action == SpeedUp {
        if !mustStopHere && passengers <= OverloadMax {
          speed := Min(speed + 1, TopSpeed);
          reward := reward + 3;
        } else {
          if mustStopHere {
            reward := reward - 15;
          }
          if passengers > OverloadMax {
            reward := reward - 30;
            crashed := true;
          }
        }
      }
    }

    /** The safety phase of `step`: the police rules at the cell reached. */
    method CheckPolice(reward0: int, terminated0: bool) returns (reward: int, terminated: bool)
      requires 0 <= posIdx < |Route|
      modifies this
      ensures var p := PoliceCheck(Outcome(old(State()), reward0, terminated0));
        State() == p.state && reward == p.reward && terminated == p.terminated
    {
      reward, terminated := reward0, terminated0;
      var landed := Route[posIdx];
      if landed in police {
        if passengers > OverloadMax {
          reward := reward - 50;
          fined := true;
          terminated := true;
        } else if passengers > LegalMax {
          reward := reward - 20;
          fined := true;
        }
      }
    }
  }
}
