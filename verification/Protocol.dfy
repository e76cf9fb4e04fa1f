/** The whole service as a transition system. Any number of requests and cleanup runs interleave; Redis replies,
    snapshot orders and the passage of time are chosen freely by the actions.

    Each action is a clock reading, one critical section of a map, or one Redis operation, with a few joins.
    ReadClock takes in the answer of the limit lookup before it, CheckKnown the existence check before the delete,
    and SnapshotUnknown the health flag: these are arbitrary and neither read nor change the state, so it does not
    matter when they arrive. ApplyRequest takes in the increment of the result metric after the critical section:
    no step reads the metrics, so only their values at a moment when a request is between the two differ. */
module Protocol {
  import opened Clock
  import opened Wrappers
  import opened Counters
  import opened CounterMaps
  import opened AbuseStore
  import opened Routing
  import opened Sequences

  datatype Config = Config(w: Seconds, limits: Limits, threshold: nat)
  {
    predicate Sound() {
      limits.Global().Sound()
    }

    /** The count above which a slot of an unknown counter is charged. */
    function Line(): int {
      limits.Global().line
    }
  }

  /** A call of Decide with the reply of Redis to its limit lookup. */
  datatype Call = Call(apiKey: string, ip: string, reply: LimitReply)

  /** A request between its clock reading and its critical section. */
  datatype Pending = Pending(call: Call, now: nat)

  /** Where a cleanup run stands; the head of `todo` is the entry at hand. */
  datatype Phase =
    | Idle
    | Started(start: nat)
    | KnownLoop(start: nat, keys: seq<string>)
    | UnknownLoop(start: nat, redisUp: bool, todo: seq<Snapshot>)
    | Fetched(start: nat, redisUp: bool, todo: seq<Snapshot>, live: Counter)
    | Upserted(start: nat, redisUp: bool, todo: seq<Snapshot>, acked: Option<AbuseRecord>)
  {
    predicate WellFormed() {
      (Fetched? || Upserted?) ==> todo != []
    }

    predicate OnUnknown() {
      UnknownLoop? || Fetched? || Upserted?
    }
  }

  datatype State = State(
    clock: nat,
    pending: map<nat, Pending>,
    known: CounterMap,
    unknown: CounterMap,
    tally: Tally,
    cleaners: map<nat, Phase>,
    records: Records,
    /** Requests counted by counters that are gone. */
    forgotten: nat)

  const INITIAL := State(0, map[], map[], map[], Tally(0, 0, 0), map[], map[], 0)

  datatype Action =
    | Tick(dt: nat)
    | PassThrough
    | ReadClock(thread: nat, call: Call)
    | ApplyRequest(thread: nat)
    | StartRun(cleaner: nat)
    | SnapshotKnown(cleaner: nat, keys: seq<string>)
    | CheckKnown(cleaner: nat, check: ExistsReply)
    | SnapshotUnknown(cleaner: nat, redisUp: bool, snaps: seq<Snapshot>)
    | ReRead(cleaner: nat)
    | SendUpsert(cleaner: nat, u: Upsert)
    | Conclude(cleaner: nat)
    | FinishRun(cleaner: nat)
  {
    predicate ByCleaner() {
      !Tick? && !PassThrough? && !ReadClock? && !ApplyRequest?
    }
  }

  function PhaseOf(s: State, cleaner: nat): (p: Phase) {
    if cleaner in s.cleaners then s.cleaners[cleaner] else Idle
  }

  predicate OverThreshold(cfg: Config, redisUp: bool, c: Counter) {
    c.hits >= cfg.threshold && redisUp
  }

  predicate Enabled(cfg: Config, s: State, a: Action) {
    match a
    case Tick(_) => true
    case PassThrough => true
    case ReadClock(t, call) => t !in s.pending && (call.apiKey != "" || call.ip != "")
    case ApplyRequest(t) => t in s.pending
    case StartRun(c) => PhaseOf(s, c).Idle?
    case SnapshotKnown(c, keys) =>
      && PhaseOf(s, c).Started?
      && (forall i, j :: 0 <= i < j < |keys| ==> keys[i] != keys[j])
      && (set i | 0 <= i < |keys| :: keys[i]) == s.known.Keys
    case CheckKnown(c, _) => PhaseOf(s, c).KnownLoop? && PhaseOf(s, c).keys != []
    case SnapshotUnknown(c, _, snaps) =>
      PhaseOf(s, c).KnownLoop? && PhaseOf(s, c).keys == [] && IsSnapshot(s.unknown, snaps)
    case ReRead(c) =>
      var p := PhaseOf(s, c);
      p.UnknownLoop? && p.todo != [] && OverThreshold(cfg, p.redisUp, p.todo[0].counter)
    case SendUpsert(c, _) => PhaseOf(s, c).Fetched? && PhaseOf(s, c).todo != []
    case Conclude(c) =>
      var p := PhaseOf(s, c);
      || (p.Upserted? && p.todo != [])
      || (p.UnknownLoop? && p.todo != [] && !OverThreshold(cfg, p.redisUp, p.todo[0].counter))
    case FinishRun(c) => PhaseOf(s, c).UnknownLoop? && PhaseOf(s, c).todo == []
  }

  function RouteOfCall(cfg: Config, call: Call): Route {
    RouteOf(cfg.limits, call.apiKey, call.ip, Answer(call.reply))
  }

  datatype Side = KnownSide | UnknownSide

  function MapOf(s: State, side: Side): CounterMap {
    if side.KnownSide? then s.known else s.unknown
  }

  /** What an action does to a map: at most one event of one key. */
  datatype KeyEvent = KeyEvent(key: string, event: Event)

  function EventOf(cfg: Config, s: State, a: Action, side: Side): Option<KeyEvent>
    requires Enabled(cfg, s, a)
  {
    match a
    case ApplyRequest(t) =>
      var route, now := RouteOfCall(cfg, s.pending[t].call), s.pending[t].now;
      if route.FailOpen? || route.Individual? != side.KnownSide? then None
      else Some(KeyEvent(route.key, Ask(Request(now, route.policy))))
    case CheckKnown(c, check) =>
      var p := PhaseOf(s, c);
      if side.UnknownSide? || check.ExistsUnreachable? then None
      else Some(KeyEvent(p.keys[0], if check.n == 0 then Drop else Collect(p.start)))
    case Conclude(c) =>
      var p := PhaseOf(s, c);
      if side.KnownSide? then None else Some(KeyEvent(p.todo[0].key, Collect(p.start)))
    case _ => None
  }

  function Effect(w: Seconds, m: CounterMap, e: Option<KeyEvent>): CounterMap {
    if e.None? then m else Act(w, m, e.value.key, e.value.event)
  }

  /** Requests that a map stops remembering. */
  function Lost(w: Seconds, m: CounterMap, e: Option<KeyEvent>): nat {
    if e.Some? && e.value.key in m && e.value.key !in Effect(w, m, e) then m[e.value.key].total else 0
  }

  function TallyAfter(cfg: Config, s: State, a: Action): Tally
    requires Enabled(cfg, s, a)
  {
    match a
    case PassThrough => s.tally.Count(FailOpen, true)
    case ApplyRequest(t) =>
      var route := RouteOfCall(cfg, s.pending[t].call);
      s.tally.Count(route, Admitted(cfg.w, s.known, s.unknown, route, s.pending[t].now))
    case _ => s.tally
  }

  function PhaseAfter(cfg: Config, s: State, a: Action): Phase
    requires a.ByCleaner() && Enabled(cfg, s, a)
  {
    var p := PhaseOf(s, a.cleaner);
    match a
    case StartRun(_) => Started(s.clock)
    case SnapshotKnown(_, keys) => KnownLoop(p.start, keys)
    case CheckKnown(_, _) => KnownLoop(p.start, p.keys[1..])
    case SnapshotUnknown(_, redisUp, snaps) => UnknownLoop(p.start, redisUp, snaps)
    case ReRead(_) =>
      if p.todo[0].key in s.unknown then Fetched(p.start, p.redisUp, p.todo, s.unknown[p.todo[0].key])
      else UnknownLoop(p.start, p.redisUp, p.todo[1..])
    case SendUpsert(_, u) =>
      var acked := if u.Acked? && Place(p.todo[0].key).Some? then Some(RecordOf(p.live)) else None;
      Upserted(p.start, p.redisUp, p.todo, acked)
    case Conclude(_) => UnknownLoop(p.start, p.redisUp, p.todo[1..])
    case FinishRun(_) => Idle
  }

  function RecordsAfter(cfg: Config, s: State, a: Action): Records
    requires Enabled(cfg, s, a)
  {
    if a.SendUpsert? && (a.u.Acked? || a.u.written) && Place(PhaseOf(s, a.cleaner).todo[0].key).Some? then
      s.records[Place(PhaseOf(s, a.cleaner).todo[0].key).value := RecordOf(PhaseOf(s, a.cleaner).live)]
    else s.records
  }

  function Step(cfg: Config, s: State, a: Action): State
    requires Enabled(cfg, s, a)
  {
    var knownEvent, unknownEvent := EventOf(cfg, s, a, KnownSide), EventOf(cfg, s, a, UnknownSide);
    State(
      if a.Tick? then s.clock + a.dt else s.clock,
      if a.ReadClock? then s.pending[a.thread := Pending(a.call, s.clock)]
      else if a.ApplyRequest? then s.pending - {a.thread}
      else s.pending,
      Effect(cfg.w, s.known, knownEvent),
      Effect(cfg.w, s.unknown, unknownEvent),
      TallyAfter(cfg, s, a),
      if a.ByCleaner() then s.cleaners[a.cleaner := PhaseAfter(cfg, s, a)] else s.cleaners,
      RecordsAfter(cfg, s, a),
      s.forgotten + Lost(cfg.w, s.known, knownEvent) + Lost(cfg.w, s.unknown, unknownEvent))
  }

  /** The critical section of a request does to the state what Limiter.Decide does to its objects. */
  lemma RequestIsDecide(cfg: Config, s: State, thread: nat)
    requires Enabled(cfg, s, ApplyRequest(thread))
    ensures var p, t := s.pending[thread], Step(cfg, s, ApplyRequest(thread));
      var route := RouteOfCall(cfg, p.call);
      && t.known == KnownAfter(cfg.w, s.known, route, p.now)
      && t.unknown == UnknownAfter(cfg.w, s.unknown, route, p.now)
      && t.tally == s.tally.Count(route, Admitted(cfg.w, s.known, s.unknown, route, p.now))
  {
  }

  /** It does so by the reply of Redis, in the numbers that Limiter.Decide promises. */
  lemma RequestServes(cfg: Config, s: State, thread: nat)
    requires Enabled(cfg, s, ApplyRequest(thread))
    ensures var p, t := s.pending[thread], Step(cfg, s, ApplyRequest(thread));
      var admitted := Admitted(cfg.w, s.known, s.unknown, RouteOfCall(cfg, p.call), p.now);
      && Serves(cfg.w, cfg.limits, p.call.apiKey, p.call.ip, p.call.reply, p.now,
        s.known, t.known, s.unknown, t.unknown, admitted)
      && MovesResult(p.call.apiKey, p.call.reply, admitted, s.tally, t.tally)
  {
    hide Serves, MovesResult;
    var p := s.pending[thread];
    RequestIsDecide(cfg, s, thread);
    RouteServes(cfg.w, cfg.limits, p.call.apiKey, p.call.ip, p.call.reply, p.now, s.known, s.unknown);
    CountMovesResult(cfg.limits, p.call.apiKey, p.call.ip, p.call.reply,
      Admitted(cfg.w, s.known, s.unknown, RouteOfCall(cfg, p.call), p.now), s.tally);
  }

  // ---- Runs ----

  predicate ValidRun(cfg: Config, acts: seq<Action>)
    decreases acts, 0
  {
    acts == [] || (ValidRun(cfg, Front(acts)) && Enabled(cfg, Exec(cfg, Front(acts)), Last(acts)))
  }

  function Exec(cfg: Config, acts: seq<Action>): State
    requires ValidRun(cfg, acts)
    decreases acts, 1
  {
    if acts == [] then INITIAL else Step(cfg, Exec(cfg, Front(acts)), Last(acts))
  }

  /** The history of one key in one map. */
  function Events(cfg: Config, acts: seq<Action>, side: Side, key: string): seq<Event>
    requires ValidRun(cfg, acts)
  {
    if acts == [] then []
    else
      var e := EventOf(cfg, Exec(cfg, Front(acts)), Last(acts), side);
      var before := Events(cfg, Front(acts), side, key);
      if e.Some? && e.value.key == key then before + [e.value.event] else before
  }

  lemma EffectOnKey(w: Seconds, m: CounterMap, e: Option<KeyEvent>, key: string)
    ensures Find(Effect(w, m, e), key) ==
      if e.Some? && e.value.key == key then Apply(w, Find(m, key), e.value.event) else Find(m, key)
  {
  }

  lemma ReplayStep(w: Seconds, es: seq<Event>, e: Event)
    ensures Replay(w, es + [e]) == Apply(w, Replay(w, es), e)
  {
  }

  lemma StepOnMap(cfg: Config, s: State, a: Action, side: Side)
    requires Enabled(cfg, s, a)
    ensures MapOf(Step(cfg, s, a), side) == Effect(cfg.w, MapOf(s, side), EventOf(cfg, s, a, side))
  {
  }

  /** Each counter of the running service is the replay of its own history. */
  lemma {:induction false} CounterIsReplay(cfg: Config, acts: seq<Action>, side: Side, key: string)
    requires ValidRun(cfg, acts)
    ensures Find(MapOf(Exec(cfg, acts), side), key) == Replay(cfg.w, Events(cfg, acts, side, key))
  {
    if acts != [] {
      var s := Exec(cfg, Front(acts));
      var e := EventOf(cfg, s, Last(acts), side);
      CounterIsReplay(cfg, Front(acts), side, key);
      StepOnMap(cfg, s, Last(acts), side);
      EffectOnKey(cfg.w, MapOf(s, side), e, key);
      if e.Some? && e.value.key == key {
        ReplayStep(cfg.w, Events(cfg, Front(acts), side, key), e.value.event);
      }
    }
  }
}
