/** The frontend's state store: the last reinforcement-learning state the
    server sent, the connection and start flags, and the camera and sound
    settings of the 3D view. */
module GameStore {
  import Daladala
  import GridWorld

  datatype Option<T> = None | Some(value: T)

  /** `a ?? b`: the value of `a` unless it is null or undefined. */
  function OrElse<T>(a: Option<T>, b: T): T
  {
    if a.Some? then a.value else b
  }

  datatype Point = Point(x: int, y: int)

  /** One entry of the hazard list: a cell and the kind of hazard on it. */
  datatype Hazard = Hazard(x: int, y: int, kind: string)

  /** The 21 reinforcement-learning fields of the store. */
  datatype RLState = RLState(
    step: int,
    position: Point,
    passengers: int,
    capacity: int,
    money: int,
    speed: int,
    lightRed: int,
    policeHere: int,
    mustStop: int,
    fined: int,
    hazards: seq<Hazard>,
    policeCheckpoints: seq<Point>,
    trafficLights: seq<Point>,
    trafficLightStates: map<string, int>,
    highDemandStops: seq<Point>,
    lightCycle: int,
    episode: int,
    action: int,
    reward: int,
    totalReward: int,
    terminated: bool)

  /** A server payload: each of the 21 fields may be missing (null or
      undefined). */
  datatype Payload = Payload(
    step: Option<int>,
    position: Option<Point>,
    passengers: Option<int>,
    capacity: Option<int>,
    money: Option<int>,
    speed: Option<int>,
    lightRed: Option<int>,
    policeHere: Option<int>,
    mustStop: Option<int>,
    fined: Option<int>,
    hazards: Option<seq<Hazard>>,
    policeCheckpoints: Option<seq<Point>>,
    trafficLights: Option<seq<Point>>,
    trafficLightStates: Option<map<string, int>>,
    highDemandStops: Option<seq<Point>>,
    lightCycle: Option<int>,
    episode: Option<int>,
    action: Option<int>,
    reward: Option<int>,
    totalReward: Option<int>,
    terminated: Option<bool>)

  /** A server message: its fields either sit at the top level or are
      wrapped in a nested `data` object. */
  datatype Message = Message(nested: Option<Payload>, fields: Payload)

  /** The camera modes of the 3D view. */
  datatype CameraMode = Chase | Driver | TopDown | Cinematic | PassengerView

  /** The store's RL fields before any message: the bus at the start of the
      route, empty, in episode 1. */
  const InitialState := RLState(
    0, Point(0, 14), 0, 50, 0, 0,
    0, 0, 0, 0,
    [], [], [], map[], [],
    0, 1, 0, 0, 0, false)

  /** The payload with no fields. */
  const EmptyPayload: Payload := Payload(
    None, None, None, None, None, None, None, None, None, None, None,
    None, None, None, None, None, None, None, None, None, None)

  /** The payload carrying every field of `s`. */
  function Snapshot(s: RLState): Payload
  {
    Payload(
      Some(s.step), Some(s.position), Some(s.passengers), Some(s.capacity), Some(s.money),
      Some(s.speed), Some(s.lightRed), Some(s.policeHere), Some(s.mustStop), Some(s.fined),
      Some(s.hazards), Some(s.policeCheckpoints), Some(s.trafficLights),
      Some(s.trafficLightStates), Some(s.highDemandStops), Some(s.lightCycle),
      Some(s.episode), Some(s.action), Some(s.reward), Some(s.totalReward), Some(s.terminated))
  }

  /** `data.data || data`: the nested object when there is one. */
  function Source(m: Message): Payload
  {
    OrElse(m.nested, m.fields)
  }

  /** The RL fields after a payload: each field present in `p` replaces the
      old value, each missing one keeps it. */
  function Merge(s: RLState, p: Payload): (r: RLState)
  {
    RLState(
      OrElse(p.step, s.step),
      OrElse(p.position, s.position),
      OrElse(p.passengers, s.passengers),
      OrElse(p.capacity, s.capacity),
      OrElse(p.money, s.money),
      OrElse(p.speed, s.speed),
      OrElse(p.lightRed, s.lightRed),
      OrElse(p.policeHere, s.policeHere),
      OrElse(p.mustStop, s.mustStop),
      OrElse(p.fined, s.fined),
      OrElse(p.hazards, s.hazards),
      OrElse(p.policeCheckpoints, s.policeCheckpoints),
      OrElse(p.trafficLights, s.trafficLights),
      OrElse(p.trafficLightStates, s.trafficLightStates),
      OrElse(p.highDemandStops, s.highDemandStops),
      OrElse(p.lightCycle, s.lightCycle),
      OrElse(p.episode, s.episode),
      OrElse(p.action, s.action),
      OrElse(p.reward, s.reward),
      OrElse(p.totalReward, s.totalReward),
      OrElse(p.terminated, s.terminated))
  }

  /** Two payloads sent one after the other, as one: the later one wins
      wherever it has a field. */
  function Overlay(later: Payload, earlier: Payload): (p: Payload)
  {
    Payload(
      Pick(later.step, earlier.step),
      Pick(later.position, earlier.position),
      Pick(later.passengers, earlier.passengers),
      Pick(later.capacity, earlier.capacity),
      Pick(later.money, earlier.money),
      Pick(later.speed, earlier.speed),
      Pick(later.lightRed, earlier.lightRed),
      Pick(later.policeHere, earlier.policeHere),
      Pick(later.mustStop, earlier.mustStop),
      Pick(later.fined, earlier.fined),
      Pick(later.hazards, earlier.hazards),
      Pick(later.policeCheckpoints, earlier.policeCheckpoints),
      Pick(later.trafficLights, earlier.trafficLights),
      Pick(later.trafficLightStates, earlier.trafficLightStates),
      Pick(later.highDemandStops, earlier.highDemandStops),
      Pick(later.lightCycle, earlier.lightCycle),
      Pick(later.episode, earlier.episode),
      Pick(later.action, earlier.action),
      Pick(later.reward, earlier.reward),
      Pick(later.totalReward, earlier.totalReward),
      Pick(later.terminated, earlier.terminated))
  }

  /** The later of two optional values when it is present. */
  function Pick<T>(later: Option<T>, earlier: Option<T>): (r: Option<T>)
    ensures r.Some? <==> later.Some? || earlier.Some?
  {
    if later.Some? then later else earlier
  }

  /** A payload without fields changes nothing. */
  lemma MergeEmpty(s: RLState)
    ensures Merge(s, EmptyPayload) == s
  {
  }

  /** A payload with every field replaces the whole state: the old state
      leaves no trace. */
  lemma MergeSnapshot(s: RLState, t: RLState)
    ensures Merge(s, Snapshot(t)) == t
  {
  }

  /** Receiving the same payload twice is the same as receiving it once. */
  lemma MergeIdempotent(s: RLState, p: Payload)
    ensures Merge(Merge(s, p), p) == Merge(s, p)
  {
  }

  /** Two payloads in a row act as their overlay. */
  lemma MergeOverlay(s: RLState, p: Payload, q: Payload)
    ensures Merge(Merge(s, p), q) == Merge(s, Overlay(q, p))
  {
  }

  /** A field the payload carries is taken, even when it is zero or false;
      only a missing field keeps the old value. */
  lemma MergeTakesFalsyValues(s: RLState, p: Payload)
    requires p.terminated == Some(false) && p.step == Some(0) && p.passengers == Some(0)
    ensures var r := Merge(s, p);
      !r.terminated && r.step == 0 && r.passengers == 0
  {
  }

  /** A field `sent` by a payload turns `before` into `now`: the value sent
      when the payload carries the field, the old value when it is missing. */
  predicate Updated<T(==)>(sent: Option<T>, before: T, now: T)
  {
    (sent.Some? ==> now == sent.value) && (sent.None? ==> now == before)
  }

  /** Each of the 21 fields is merged on its own: a payload that carries it
      replaces it, one that leaves it out keeps it, whatever the other
      fields are. */
  lemma MergeFieldByField(s: RLState, p: Payload)
    ensures Updated(p.step, s.step, Merge(s, p).step)
    ensures Updated(p.position, s.position, Merge(s, p).position)
    ensures Updated(p.passengers, s.passengers, Merge(s, p).passengers)
    ensures Updated(p.capacity, s.capacity, Merge(s, p).capacity)
    ensures Updated(p.money, s.money, Merge(s, p).money)
    ensures Updated(p.speed, s.speed, Merge(s, p).speed)
    ensures Updated(p.lightRed, s.lightRed, Merge(s, p).lightRed)
    ensures Updated(p.policeHere, s.policeHere, Merge(s, p).policeHere)
    ensures Updated(p.mustStop, s.mustStop, Merge(s, p).mustStop)
    ensures Updated(p.fined, s.fined, Merge(s, p).fined)
    ensures Updated(p.hazards, s.hazards, Merge(s, p).hazards)
    ensures Updated(p.policeCheckpoints, s.policeCheckpoints, Merge(s, p).policeCheckpoints)
    ensures Updated(p.trafficLights, s.trafficLights, Merge(s, p).trafficLights)
    ensures Updated(p.trafficLightStates, s.trafficLightStates, Merge(s, p).trafficLightStates)
    ensures Updated(p.highDemandStops, s.highDemandStops, Merge(s, p).highDemandStops)
    ensures Updated(p.lightCycle, s.lightCycle, Merge(s, p).lightCycle)
    ensures Updated(p.episode, s.episode, Merge(s, p).episode)
    ensures Updated(p.action, s.action, Merge(s, p).action)
    ensures Updated(p.reward, s.reward, Merge(s, p).reward)
    ensures Updated(p.totalReward, s.totalReward, Merge(s, p).totalReward)
    ensures Updated(p.terminated, s.terminated, Merge(s, p).terminated)
  {
  }

  /** The store's initial position is the first cell of the environment's
      route, and its capacity the bus's physical maximum. */
  lemma InitialStateMatchesEnvironment()
    ensures InitialState.position == Point(Daladala.Route[0].x, Daladala.Route[0].y)
    ensures InitialState.capacity == Daladala.PhysicalMax
    ensures InitialState.episode == 1 && InitialState.action == Daladala.Move
    ensures InitialState.passengers == 0 && !InitialState.terminated
  {
    Daladala.RouteShape();
  }

  /** The zustand store. */
  class Store {
    var rl: RLState
    var isConnected: bool
    var hasStarted: bool
    var isMuted: bool
    var rotation: real
    var cameraMode: CameraMode

    constructor()
      ensures rl == InitialState
      ensures !isConnected && !hasStarted && !isMuted && rotation == 0.0 && cameraMode == Chase
    {
      rl := InitialState;
      isConnected := false;
      hasStarted := false;
      isMuted := false;
      rotation := 0.0;
      cameraMode := Chase;
    }

    /** `updateFromRL(data)`: merge the message's fields and mark the store
        connected and started. */
    method UpdateFromRL(m: Message)
      modifies this
      ensures rl == Merge(old(rl), Source(m))
      ensures isConnected && hasStarted
      ensures isMuted == old(isMuted) && rotation == old(rotation) && cameraMode == old(cameraMode)
    {
      var data := if m.nested.Some? then m.nested.value else m.fields;
      rl := Merge(rl, data);
      isConnected := true;
      hasStarted := true;
    }

    /** `updatePosition(pos, rot)`. */
    method UpdatePosition(pos: Point, rot: real)
      modifies this`rl, this`rotation
      ensures rl == old(rl).(position := pos) && rotation == rot
    {
      rl := rl.(position := pos);
      rotation := rot;
    }

    /** `setSpeed(speed)`. */
    method SetSpeed(speed: int)
      modifies this`rl
      ensures rl == old(rl).(speed := speed)
    {
      rl := rl.(speed := speed);
    }

    /** `setCameraMode(mode)`. */
    method SetCameraMode(mode: CameraMode)
      modifies this`cameraMode
      ensures cameraMode == mode
    {
      cameraMode := mode;
    }

    /** `setHasStarted(started)`. */
    method SetHasStarted(started: bool)
      modifies this`hasStarted
      ensures hasStarted == started
    {
      hasStarted := started;
    }

    /** `toggleMute()`. */
    method ToggleMute()
      modifies this`isMuted
      ensures isMuted == !old(isMuted)
    {
      isMuted := !isMuted;
    }

    /** `reset()`: the RL fields go back to their initial values in the next
        episode. The partial update leaves every flag and view setting as it
        was, the connection and mute flags included. */
    method Reset()
      modifies this`rl
      ensures rl == InitialState.(episode := old(rl.episode) + 1)
    {
      rl := InitialState.(episode := rl.episode + 1);
    }
  }

  /** The English and Swahili names of an action. */
  datatype ActionName = ActionName(en: string, sw: string)

  const UnknownName := ActionName("Unknown", "Haijulikani")
  const UnknownColor := "#6b7280"

  /** `getActionName`: the names of the five actions, a fixed pair for any
      other number. */
  function GetActionName(action: int): (n: ActionName)
    ensures n == UnknownName <==> !(Daladala.Move <= action <= Daladala.SpeedUp)
  {
    if action == Daladala.Move then ActionName("Move", "Kusonga")
    else if action == Daladala.Pickup then ActionName("Pick Up", "Chukua Abiria")
    else if action == Daladala.Dropoff then ActionName("Drop Off", "Atua Abiria")
    else if action == Daladala.Stop then ActionName("Stop", "Simama")
    else if action == Daladala.SpeedUp then ActionName("Speed Up", "Ongeza Kasi")
    else UnknownName
  }

  /** `getActionColor`: the colour of the five actions, grey for any other
      number. */
  function GetActionColor(action: int): (c: string)
    ensures c == UnknownColor <==> !(Daladala.Move <= action <= Daladala.SpeedUp)
  {
    if action == Daladala.Move then "#3b82f6"
    else if action == Daladala.Pickup then "#10b981"
    else if action == Daladala.Dropoff then "#f59e0b"
    else if action == Daladala.Stop then "#ef4444"
    else if action == Daladala.SpeedUp then "#8b5cf6"
    else UnknownColor
  }

  /** Distinct actions have distinct names in both languages and distinct
      colours. */
  lemma ActionLabelsDistinct(a: int, b: int)
    requires Daladala.Move <= a <= Daladala.SpeedUp && Daladala.Move <= b <= Daladala.SpeedUp && a != b
    ensures GetActionName(a).en != GetActionName(b).en
    ensures GetActionName(a).sw != GetActionName(b).sw
    ensures GetActionColor(a) != GetActionColor(b)
  {
  }

  /** The store's English action names agree with the coordinate helpers'
      action descriptions for every number. */
  lemma NamesMatchDescriptions(action: int)
    ensures GetActionName(action).en == GridWorld.GetActionDescription(action)
  {
  }
}
