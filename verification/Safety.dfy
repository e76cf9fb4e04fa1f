/** Properties of every run of the service. */
module Safety {
  import opened Clock
  import opened Wrappers
  import opened Counters
  import opened CounterMaps
  import opened AbuseStore
  import opened Routing
  import opened Protocol
  import opened Sequences
  import History
  import Bounds
  import Collection

  // ---- Counters ----

  /** Unknown counters see the global policy only, and are collected but never dropped. */
  predicate IsGlobalEvent(cfg: Config, e: Event) {
    !e.Drop? && (e.Ask? ==> e.request.policy == cfg.limits.Global())
  }

  lemma {:induction false} UnknownEventsAreGlobal(cfg: Config, acts: seq<Action>, key: string)
    requires ValidRun(cfg, acts)
    ensures forall e :: e in Events(cfg, acts, UnknownSide, key) ==> IsGlobalEvent(cfg, e)
  {
    if acts != [] {
      UnknownEventsAreGlobal(cfg, Front(acts), key);
    }
  }

  lemma GlobalHistory(cfg: Config, acts: seq<Action>, key: string)
    requires ValidRun(cfg, acts)
    ensures History.UnderPolicy(Events(cfg, acts, UnknownSide, key), cfg.limits.Global())
  {
    var es := Events(cfg, acts, UnknownSide, key);
    UnknownEventsAreGlobal(cfg, acts, key);
    assert forall i :: 0 <= i < |es| ==> es[i] in es;
  }

  /** In every reachable state a counter's slot is that of its last request, and each charge of an unknown
      counter is backed by requests. */
  lemma CountersAreSound(cfg: Config, acts: seq<Action>, side: Side, key: string)
    requires cfg.Sound() && ValidRun(cfg, acts) && key in MapOf(Exec(cfg, acts), side)
    ensures Consistent(cfg.w, MapOf(Exec(cfg, acts), side)[key])
    ensures side.UnknownSide? ==> History.Evidence(Exec(cfg, acts).unknown[key], cfg.Line())
  {
    var es := Events(cfg, acts, side, key);
    CounterIsReplay(cfg, acts, side, key);
    ReplayConsistent(cfg.w, es);
    if side.UnknownSide? {
      GlobalHistory(cfg, acts, key);
      History.EvidenceHolds(cfg.w, es, cfg.Line());
    }
  }

  /** The closed forms hold of every live counter, whatever was collected or deleted before it was created:
      always of an unknown one, and of a known one while its limit stays the same. */
  lemma LiveCounterIsClosedForm(cfg: Config, acts: seq<Action>, side: Side, key: string, p: Policy, rs: seq<seq<nat>>)
    requires p.Sound() && ValidRun(cfg, acts) && key in MapOf(Exec(cfg, acts), side)
    requires
      if side.UnknownSide? then p == cfg.limits.Global() else History.UnderPolicy(Events(cfg, acts, side, key), p)
    requires History.AreRuns(cfg.w, rs)
    requires History.Flatten(rs) == History.Lived(cfg.w, Events(cfg, acts, side, key))
    ensures rs != [] && History.ClosedForm(cfg.w, p, rs, MapOf(Exec(cfg, acts), side)[key])
  {
    CounterIsReplay(cfg, acts, side, key);
    if side.UnknownSide? {
      GlobalHistory(cfg, acts, key);
    }
    History.LiveClosedForm(cfg.w, p, Events(cfg, acts, side, key), rs);
  }

  lemma {:induction false} KnownEventsCarryBurst(cfg: Config, acts: seq<Action>, key: string)
    requires ValidRun(cfg, acts)
    ensures forall e :: e in Events(cfg, acts, KnownSide, key) && e.Ask? ==>
      e.request.policy == KnownPolicy(e.request.policy.limit, cfg.limits.burst)
  {
    if acts != [] {
      KnownEventsCarryBurst(cfg, Front(acts), key);
    }
  }

  /** All requests of the history came under one limit. */
  predicate UnderLimit(es: seq<Event>, limit: int) {
    forall i :: 0 <= i < |es| && es[i].Ask? ==> es[i].request.policy.limit == limit
  }

  /** The violation hits of a live known counter whose limit stays the same: its slots with more than `limit`
      requests, the open one not yet counted. */
  lemma ViolationsAreLongSlots(cfg: Config, acts: seq<Action>, key: string, limit: int, rs: seq<seq<nat>>)
    requires ValidRun(cfg, acts) && key in Exec(cfg, acts).known
    requires UnderLimit(Events(cfg, acts, KnownSide, key), limit)
    requires History.AreRuns(cfg.w, rs)
    requires History.Flatten(rs) == History.Lived(cfg.w, Events(cfg, acts, KnownSide, key))
    ensures rs != []
    ensures Exec(cfg, acts).known[key].hits + (if |rs[|rs| - 1]| > limit then 1 else 0) == History.LongerThan(rs, limit)
  {
    var es, p := Events(cfg, acts, KnownSide, key), KnownPolicy(limit, cfg.limits.burst);
    KnownEventsCarryBurst(cfg, acts, key);
    assert forall i :: 0 <= i < |es| ==> es[i] in es;
    CounterIsReplay(cfg, acts, KnownSide, key);
    History.ReplayIsFinal(cfg.w, p, es);
    History.ChargesAreLongRuns(cfg.w, p, rs);
  }

  /** The abuse hits of a live unknown counter: its slots with more than global limit times multiplier requests. */
  lemma AbuseIsLongSlots(cfg: Config, acts: seq<Action>, key: string, rs: seq<seq<nat>>)
    requires ValidRun(cfg, acts) && key in Exec(cfg, acts).unknown
    requires History.AreRuns(cfg.w, rs)
    requires History.Flatten(rs) == History.Lived(cfg.w, Events(cfg, acts, UnknownSide, key))
    ensures rs != []
    ensures var line := cfg.limits.globalLimit * cfg.limits.abuseMultiplier;
      Exec(cfg, acts).unknown[key].hits + (if |rs[|rs| - 1]| > line then 1 else 0) == History.LongerThan(rs, line)
  {
    CounterIsReplay(cfg, acts, UnknownSide, key);
    GlobalHistory(cfg, acts, key);
    History.ReplayIsFinal(cfg.w, cfg.limits.Global(), Events(cfg, acts, UnknownSide, key));
    History.ChargesAreLongRuns(cfg.w, cfg.limits.Global(), rs);
  }

  /** With limits that vary, the request that leaves a slot charges it just when its count exceeds the limit that
      Redis has returned for that request. */
  lemma ClosingLimitCharges(cfg: Config, s: State, thread: nat, limit: int)
    requires Enabled(cfg, s, ApplyRequest(thread))
    requires s.pending[thread].call.apiKey != "" && s.pending[thread].call.reply == Value(Some(limit))
    requires s.pending[thread].call.apiKey in s.known
    ensures var key, now := s.pending[thread].call.apiKey, s.pending[thread].now;
      var t, before := Step(cfg, s, ApplyRequest(thread)), s.known[key];
      && key in t.known
      && t.known[key].hits
        == before.hits + if before.slot != SlotOf(now, cfg.w) && before.windowCount > limit then 1 else 0
  {
    RequestServes(cfg, s, thread);
    hide Step;
  }

  /** Abuse implies blocking in the running service: with the cap at or under the line, the service has refused
      `line + 1 - cap` requests of a live counter for each of its charges. */
  lemma AbusersWereRefused(cfg: Config, acts: seq<Action>, key: string)
    requires cfg.Sound() && ValidRun(cfg, acts) && key in Exec(cfg, acts).unknown
    requires cfg.limits.Global().Cap() <= cfg.Line()
    ensures Exec(cfg, acts).unknown[key].hits * (cfg.Line() + 1 - cfg.limits.Global().Cap())
      <= History.RefusedOf(cfg.w, Events(cfg, acts, UnknownSide, key))
  {
    hide Exec, Events, Replay, History.RefusedOf, ValidRun, History.UnderPolicy;
    CounterIsReplay(cfg, acts, UnknownSide, key);
    GlobalHistory(cfg, acts, key);
    History.ChargesAreRefusals(cfg.w, cfg.limits.Global(), Events(cfg, acts, UnknownSide, key));
  }

  // ---- Names ----

  /** The name of a client that is not empty, in one of the two namespaces. */
  predicate IsClient(k: string) {
    || (HasPrefix(k, UNKNOWN_KEY_PREFIX) && |k| > |UNKNOWN_KEY_PREFIX|)
    || (HasPrefix(k, UNKNOWN_IP_PREFIX) && |k| > |UNKNOWN_IP_PREFIX|)
  }

  predicate NamesClients(p: Phase) {
    p.OnUnknown() ==> forall i :: 0 <= i < |p.todo| ==> IsClient(p.todo[i].key)
  }

  ghost predicate Named(s: State) {
    && (forall t :: t in s.pending ==> s.pending[t].call.apiKey != "" || s.pending[t].call.ip != "")
    && (forall k :: k in s.unknown ==> IsClient(k))
    && (forall k :: k in s.known ==> k != "")
    && (forall c :: c in s.cleaners ==> NamesClients(s.cleaners[c]))
    && forall l :: l in s.records ==> Origin(l).Some? && IsClient(Origin(l).value)
  }

  lemma RoutesAreNamed(limits: Limits, call: Call)
    requires call.apiKey != "" || call.ip != ""
    ensures var r := RouteOf(limits, call.apiKey, call.ip, Answer(call.reply));
      && (r.Individual? ==> r.key != "")
      && (r.Shared? ==> IsClient(r.key))
  {
  }

  lemma PhaseStaysNamed(cfg: Config, s: State, a: Action)
    requires Enabled(cfg, s, a) && Named(s) && a.ByCleaner()
    ensures NamesClients(PhaseAfter(cfg, s, a))
  {
  }

  lemma RecordsStayNamed(cfg: Config, s: State, a: Action)
    requires Enabled(cfg, s, a) && Named(s)
    ensures forall l :: l in RecordsAfter(cfg, s, a) ==> Origin(l).Some? && IsClient(Origin(l).value)
  {
  }

  lemma KeysStayNamed(cfg: Config, s: State, a: Action)
    requires Enabled(cfg, s, a) && Named(s)
    ensures forall k :: k in Step(cfg, s, a).unknown ==> IsClient(k)
    ensures forall k :: k in Step(cfg, s, a).known ==> k != ""
  {
    if a.ApplyRequest? {
      RoutesAreNamed(cfg.limits, s.pending[a.thread].call);
    }
  }

  /** In every reachable state unknown counters and abuse records belong to nonempty keys and addresses. */
  lemma {:induction false} AlwaysNamed(cfg: Config, acts: seq<Action>)
    requires ValidRun(cfg, acts)
    ensures Named(Exec(cfg, acts))
  {
    if acts != [] {
      var s, a := Exec(cfg, Front(acts)), Last(acts);
      AlwaysNamed(cfg, Front(acts));
      KeysStayNamed(cfg, s, a);
      RecordsStayNamed(cfg, s, a);
      if a.ByCleaner() {
        PhaseStaysNamed(cfg, s, a);
      }
    }
  }

  /** Transfer's error branch is never taken: an upsert always has a place, in the database of its namespace. */
  lemma TransferHasAPlace(cfg: Config, acts: seq<Action>, cleaner: nat, u: Upsert)
    requires ValidRun(cfg, acts) && Enabled(cfg, Exec(cfg, acts), SendUpsert(cleaner, u))
    ensures var key := PhaseOf(Exec(cfg, acts), cleaner).todo[0].key;
      && (HasPrefix(key, UNKNOWN_KEY_PREFIX) || HasPrefix(key, UNKNOWN_IP_PREFIX))
      && Place(key).Some? && Origin(Place(key).value) == Some(key)
      && Place(key).value.db == if HasPrefix(key, UNKNOWN_KEY_PREFIX) then DB_ABUSE_KEY else DB_ABUSE_IP
  {
    AlwaysNamed(cfg, acts);
    var p := PhaseOf(Exec(cfg, acts), cleaner);
    assert NamesClients(p);
    OriginOfPlace(p.todo[0].key);
  }

  // ---- Conservation ----

  ghost function TotalOf(m: CounterMap): nat {
    if m == map[] then 0
    else
      var k :| k in m;
      m[k].total + TotalOf(m - {k})
  }

  /** The choice of the key to take off first does not matter. */
  lemma {:induction false} TotalOfAny(m: CounterMap, k: string)
    requires k in m
    ensures TotalOf(m) == m[k].total + TotalOf(m - {k})
    decreases |m|
  {
    var j :| j in m && TotalOf(m) == m[j].total + TotalOf(m - {j});
    if j != k {
      TotalOfAny(m - {j}, k);
      TotalOfAny(m - {k}, j);
      assert m - {j} - {k} == m - {k} - {j};
    }
  }

  lemma TotalOfUpdate(m: CounterMap, k: string, c: Counter)
    ensures TotalOf(m[k := c]) == c.total + TotalOf(m - {k})
  {
    TotalOfAny(m[k := c], k);
    assert m[k := c] - {k} == m - {k};
  }

  function Asked(e: Option<KeyEvent>): nat {
    if e.Some? && e.value.event.Ask? then 1 else 0
  }

  /** Every event keeps the books of its map: a request adds one, a deletion moves a total to the lost ones. */
  lemma EffectKeepsTotal(w: Seconds, m: CounterMap, e: Option<KeyEvent>)
    ensures TotalOf(Effect(w, m, e)) + Lost(w, m, e) == TotalOf(m) + Asked(e)
  {
    if e.Some? {
      var k := e.value.key;
      var o := Apply(w, Find(m, k), e.value.event);
      if k in m {
        TotalOfAny(m, k);
        assert m[k := m[k]] == m;
      } else {
        assert m - {k} == m;
      }
      if o.Some? {
        TotalOfUpdate(m, k, o.value);
      }
    }
  }

  /** Calls of Decide that have returned. */
  function Decided(acts: seq<Action>): nat {
    if acts == [] then 0 else Decided(Front(acts)) + if Last(acts).PassThrough? || Last(acts).ApplyRequest? then 1 else 0
  }

  /** Calls of Decide with a nonempty key or address that have returned. */
  function Counted(acts: seq<Action>): nat {
    if acts == [] then 0 else Counted(Front(acts)) + if Last(acts).ApplyRequest? then 1 else 0
  }

  lemma OneEventPerRequest(cfg: Config, s: State, a: Action)
    requires Enabled(cfg, s, a) && Named(s)
    ensures Asked(EventOf(cfg, s, a, KnownSide)) + Asked(EventOf(cfg, s, a, UnknownSide)) == if a.ApplyRequest? then 1 else 0
  {
  }

  lemma StepKeepsBooks(cfg: Config, s: State, a: Action)
    requires Enabled(cfg, s, a) && Named(s)
    ensures var t := Step(cfg, s, a);
      TotalOf(t.known) + TotalOf(t.unknown) + t.forgotten
        == TotalOf(s.known) + TotalOf(s.unknown) + s.forgotten + if a.ApplyRequest? then 1 else 0
  {
    OneEventPerRequest(cfg, s, a);
    EffectKeepsTotal(cfg.w, s.known, EventOf(cfg, s, a, KnownSide));
    EffectKeepsTotal(cfg.w, s.unknown, EventOf(cfg, s, a, UnknownSide));
  }

  /** The call that the action decides is admitted. */
  predicate IsAdmitted(cfg: Config, s: State, a: Action)
    requires Enabled(cfg, s, a)
  {
    || a.PassThrough?
    || (a.ApplyRequest?
        && var p := s.pending[a.thread];
        Admitted(cfg.w, s.known, s.unknown, RouteOfCall(cfg, p.call), p.now))
  }

  /** The call that the action decides is refused; `own` tells whether under a limit of its own. */
  predicate IsRefused(cfg: Config, s: State, a: Action, own: bool)
    requires Enabled(cfg, s, a)
  {
    && a.ApplyRequest? && !IsAdmitted(cfg, s, a)
    && RouteOfCall(cfg, s.pending[a.thread].call).Individual? == own
  }

  function AdmittedCalls(cfg: Config, acts: seq<Action>): nat
    requires ValidRun(cfg, acts)
  {
    if acts == [] then 0
    else AdmittedCalls(cfg, Front(acts)) + if IsAdmitted(cfg, Exec(cfg, Front(acts)), Last(acts)) then 1 else 0
  }

  function RefusedCalls(cfg: Config, acts: seq<Action>, own: bool): nat
    requires ValidRun(cfg, acts)
  {
    if acts == [] then 0
    else RefusedCalls(cfg, Front(acts), own) + if IsRefused(cfg, Exec(cfg, Front(acts)), Last(acts), own) then 1 else 0
  }

  lemma StepKeepsTally(cfg: Config, s: State, a: Action)
    requires Enabled(cfg, s, a)
    ensures var before, after := s.tally, Step(cfg, s, a).tally;
      && after.allowed == before.allowed + (if IsAdmitted(cfg, s, a) then 1 else 0)
      && after.blockedIndividual == before.blockedIndividual + (if IsRefused(cfg, s, a, true) then 1 else 0)
      && after.blockedGlobal == before.blockedGlobal + (if IsRefused(cfg, s, a, false) then 1 else 0)
      && after.Total() == before.Total() + (if a.PassThrough? || a.ApplyRequest? then 1 else 0)
  {
  }

  /** Each result metric counts the decisions of its kind. */
  lemma {:induction false} DecisionsAreTallied(cfg: Config, acts: seq<Action>)
    requires ValidRun(cfg, acts)
    ensures Exec(cfg, acts).tally
      == Tally(AdmittedCalls(cfg, acts), RefusedCalls(cfg, acts, true), RefusedCalls(cfg, acts, false))
  {
    hide IsAdmitted, IsRefused, Step;
    if acts != [] {
      DecisionsAreTallied(cfg, Front(acts));
      StepKeepsTally(cfg, Exec(cfg, Front(acts)), Last(acts));
    }
  }

  /** Every decision is in exactly one result metric. */
  lemma {:induction false} EveryDecisionCounts(cfg: Config, acts: seq<Action>)
    requires ValidRun(cfg, acts)
    ensures Exec(cfg, acts).tally.Total() == Decided(acts)
  {
    hide IsAdmitted, IsRefused, Step;
    if acts != [] {
      EveryDecisionCounts(cfg, Front(acts));
      StepKeepsTally(cfg, Exec(cfg, Front(acts)), Last(acts));
    }
  }

  /** Every counted request is in exactly one total: of a live counter of either map, or of a deleted one. */
  lemma {:induction false} RequestsAreConserved(cfg: Config, acts: seq<Action>)
    requires ValidRun(cfg, acts)
    ensures var s := Exec(cfg, acts);
      TotalOf(s.known) + TotalOf(s.unknown) + s.forgotten == Counted(acts)
  {
    hide TotalOf, Named, Step;
    if acts != [] {
      RequestsAreConserved(cfg, Front(acts));
      AlwaysNamed(cfg, Front(acts));
      StepKeepsBooks(cfg, Exec(cfg, Front(acts)), Last(acts));
    } else {
      NoRequestsYet();
    }
  }

  lemma NoRequestsYet()
    ensures TotalOf(INITIAL.known) + TotalOf(INITIAL.unknown) + INITIAL.forgotten == 0
  {
  }

  // ---- Collection is invisible ----

  /** Every request gets its lock within `lag` of its clock reading. */
  predicate WithinLag(cfg: Config, acts: seq<Action>, lag: nat)
    requires ValidRun(cfg, acts)
  {
    acts == [] || (
      && WithinLag(cfg, Front(acts), lag)
      && (Last(acts).ApplyRequest? ==>
        var s := Exec(cfg, Front(acts));
        s.clock <= s.pending[Last(acts).thread].now + lag))
  }

  function StartOf(p: Phase): nat {
    if p.Idle? then 0 else p.start
  }

  /** Readings are never ahead of the clock. */
  ghost predicate Causal(s: State) {
    && (forall t :: t in s.pending ==> s.pending[t].now <= s.clock)
    && forall c :: c in s.cleaners ==> StartOf(s.cleaners[c]) <= s.clock
  }

  lemma {:induction false} AlwaysCausal(cfg: Config, acts: seq<Action>)
    requires ValidRun(cfg, acts)
    ensures Causal(Exec(cfg, acts))
  {
    if acts != [] {
      AlwaysCausal(cfg, Front(acts));
      var s, a := Exec(cfg, Front(acts)), Last(acts);
      if a.ByCleaner() {
        assert StartOf(PhaseOf(s, a.cleaner)) <= s.clock;
      }
    }
  }

  /** The requests of one counter get its lock within `lag` of their clock readings. */
  predicate KeyWithinLag(cfg: Config, acts: seq<Action>, side: Side, key: string, lag: nat)
    requires ValidRun(cfg, acts)
  {
    acts == [] || (
      && KeyWithinLag(cfg, Front(acts), side, key, lag)
      && (Last(acts).ApplyRequest? ==>
        var s := Exec(cfg, Front(acts));
        var e := EventOf(cfg, s, Last(acts), side);
        e.Some? && e.value.key == key ==> s.clock <= s.pending[Last(acts).thread].now + lag))
  }

  lemma {:induction false} LagOfKey(cfg: Config, acts: seq<Action>, side: Side, key: string, lag: nat)
    requires ValidRun(cfg, acts) && WithinLag(cfg, acts, lag)
    ensures KeyWithinLag(cfg, acts, side, key, lag)
  {
    if acts != [] {
      LagOfKey(cfg, Front(acts), side, key, lag);
    }
  }

  /** The time that an event carries is not ahead of the clock, nor, for a request, behind by more than the lag. */
  lemma EventTime(cfg: Config, acts: seq<Action>, side: Side, key: string, lag: nat)
    requires ValidRun(cfg, acts) && acts != [] && KeyWithinLag(cfg, acts, side, key, lag)
    ensures var s := Exec(cfg, Front(acts));
      var e := EventOf(cfg, s, Last(acts), side);
      e.Some? && e.value.key == key ==>
        match e.value.event
        case Ask(r) => r.now <= s.clock <= r.now + lag
        case Collect(now) => now <= s.clock
        case Drop => true
  {
    var s, a := Exec(cfg, Front(acts)), Last(acts);
    AlwaysCausal(cfg, Front(acts));
    if a.ByCleaner() {
      assert StartOf(PhaseOf(s, a.cleaner)) <= s.clock;
    }
  }

  /** A bounded lag of its own requests bounds how far a counter is read behind an earlier collection. */
  lemma {:induction false} LagBoundsSkew(cfg: Config, acts: seq<Action>, lag: nat, side: Side, key: string)
    requires ValidRun(cfg, acts) && KeyWithinLag(cfg, acts, side, key, lag)
    ensures var es := Events(cfg, acts, side, key);
      && Bounds.WithinSkew(cfg.w, es, lag)
      && forall i :: 0 <= i < |es| && es[i].Collect? ==> es[i].now <= Exec(cfg, acts).clock
  {
    if acts != [] {
      var s := Exec(cfg, Front(acts));
      var e := EventOf(cfg, s, Last(acts), side);
      hide EventOf, Bounds.WithinSkew, Enabled;
      LagBoundsSkew(cfg, Front(acts), lag, side, key);
      EventTime(cfg, acts, side, key, lag);
      if e.Some? && e.value.key == key {
        Bounds.SkewStep(cfg.w, Events(cfg, Front(acts), side, key), e.value.event, lag);
      }
    }
  }

  /** Requests in the order of their readings that wait at most one window make a history in order. */
  lemma LagIsInOrder(cfg: Config, acts: seq<Action>, side: Side, key: string)
    requires ValidRun(cfg, acts) && KeyWithinLag(cfg, acts, side, key, WindowLength(cfg.w))
    requires Bounds.AskOrdered(Events(cfg, acts, side, key))
    ensures Bounds.InOrder(cfg.w, Events(cfg, acts, side, key))
  {
    LagBoundsSkew(cfg, acts, WindowLength(cfg.w), side, key);
  }

  /** When the requests of a counter never wait for its lock, its history is in order. */
  lemma {:induction false} PromptIsInOrder(cfg: Config, acts: seq<Action>, side: Side, key: string)
    requires ValidRun(cfg, acts) && KeyWithinLag(cfg, acts, side, key, 0)
    ensures var es := Events(cfg, acts, side, key);
      && Bounds.InOrder(cfg.w, es)
      && forall i :: 0 <= i < |es| && es[i].Ask? ==> es[i].request.now <= Exec(cfg, acts).clock
  {
    LagBoundsSkew(cfg, acts, 0, side, key);
    if acts != [] {
      PromptIsInOrder(cfg, Front(acts), side, key);
      EventTime(cfg, acts, side, key, 0);
    }
  }

  /** The decision on the pending request of `thread` is the one that a map without collection would give. */
  predicate IsCollectionFree(cfg: Config, acts: seq<Action>, thread: nat, side: Side)
    requires ValidRun(cfg, acts) && Enabled(cfg, Exec(cfg, acts), ApplyRequest(thread))
    requires EventOf(cfg, Exec(cfg, acts), ApplyRequest(thread), side).Some?
  {
    var s := Exec(cfg, acts);
    var e := EventOf(cfg, s, ApplyRequest(thread), side).value;
    Verdict(cfg.w, Find(MapOf(s, side), e.key), e.event.request)
      == Verdict(cfg.w, Replay(cfg.w, Collection.Uncollected(Events(cfg, acts, side, e.key))), e.event.request)
  }

  /** If no request of the counter, this one included, reads the clock more than a window behind the start of a
      collection that removed it before, then the decision of the running service, on either map, is the one that a
      map without garbage collection would give. */
  lemma DecisionsIgnoreCollection(cfg: Config, acts: seq<Action>, thread: nat, side: Side)
    requires ValidRun(cfg, acts) && Enabled(cfg, Exec(cfg, acts), ApplyRequest(thread))
    requires EventOf(cfg, Exec(cfg, acts), ApplyRequest(thread), side).Some?
    requires var e := EventOf(cfg, Exec(cfg, acts), ApplyRequest(thread), side).value;
      Bounds.WithinSkew(cfg.w, Events(cfg, acts, side, e.key) + [e.event], WindowLength(cfg.w))
    ensures IsCollectionFree(cfg, acts, thread, side)
  {
    hide Verdict, Exec, Events;
    var s := Exec(cfg, acts);
    var e := EventOf(cfg, s, ApplyRequest(thread), side).value;
    CounterIsReplay(cfg, acts, side, e.key);
    Collection.CollectionIsInvisible(cfg.w, Events(cfg, acts, side, e.key), e.event.request);
  }

  /** So it is whenever the requests of the counter wait at most one window for its lock. */
  lemma LagKeepsDecisions(cfg: Config, acts: seq<Action>, thread: nat, side: Side)
    requires ValidRun(cfg, acts) && Enabled(cfg, Exec(cfg, acts), ApplyRequest(thread))
    requires EventOf(cfg, Exec(cfg, acts), ApplyRequest(thread), side).Some?
    requires KeyWithinLag(
      cfg, acts, side, EventOf(cfg, Exec(cfg, acts), ApplyRequest(thread), side).value.key, WindowLength(cfg.w))
    requires Exec(cfg, acts).clock <= Exec(cfg, acts).pending[thread].now + WindowLength(cfg.w)
    ensures IsCollectionFree(cfg, acts, thread, side)
  {
    hide Exec, Events, KeyWithinLag, IsCollectionFree;
    var e := EventOf(cfg, Exec(cfg, acts), ApplyRequest(thread), side).value;
    LagBoundsSkew(cfg, acts, WindowLength(cfg.w), side, e.key);
    Bounds.SkewStep(cfg.w, Events(cfg, acts, side, e.key), e.event, WindowLength(cfg.w));
    DecisionsIgnoreCollection(cfg, acts, thread, side);
  }
}
