/** What one API key can get out of the whole service, while its lookups come and go between the two maps. */
module Clients {
  import opened Clock
  import opened Wrappers
  import opened Counters
  import opened CounterMaps
  import opened AbuseStore
  import opened Routing
  import opened Protocol
  import opened Sequences
  import opened Safety
  import opened Bounds
  import Intervals

  /** The action decides a call of `apiKey` whose clock reading lies in `slot`. */
  predicate DecidesFor(cfg: Config, s: State, a: Action, apiKey: string, slot: nat)
    requires Enabled(cfg, s, a)
  {
    a.ApplyRequest? && s.pending[a.thread].call.apiKey == apiKey && SlotOf(s.pending[a.thread].now, cfg.w) == slot
  }

  predicate AdmitsFor(cfg: Config, s: State, a: Action, apiKey: string, slot: nat)
    requires Enabled(cfg, s, a)
  {
    && DecidesFor(cfg, s, a, apiKey, slot)
    && var p := s.pending[a.thread];
      Admitted(cfg.w, s.known, s.unknown, RouteOfCall(cfg, p.call), p.now)
  }

  /** Calls of `apiKey` in `slot` that Decide has allowed. */
  function AllowedCalls(cfg: Config, acts: seq<Action>, apiKey: string, slot: nat): nat
    requires ValidRun(cfg, acts)
  {
    if acts == [] then 0
    else
      var admitted := AdmitsFor(cfg, Exec(cfg, Front(acts)), Last(acts), apiKey, slot);
      AllowedCalls(cfg, Front(acts), apiKey, slot) + if admitted then 1 else 0
  }

  /** The two counters of a client. */
  function KnownEvents(cfg: Config, acts: seq<Action>, apiKey: string): seq<Event>
    requires ValidRun(cfg, acts)
  {
    Events(cfg, acts, KnownSide, apiKey)
  }

  function SharedEvents(cfg: Config, acts: seq<Action>, apiKey: string): seq<Event>
    requires ValidRun(cfg, acts)
  {
    Events(cfg, acts, UnknownSide, UNKNOWN_KEY_PREFIX + apiKey)
  }

  /** An event allows a request of the slot. */
  predicate Allows(w: Seconds, m: CounterMap, e: Option<KeyEvent>, key: string, slot: nat) {
    && e.Some? && e.value.key == key && AsksIn(w, e.value.event, slot)
    && Verdict(w, Find(m, key), e.value.event.request).allowed
  }

  lemma AllowedInStep(w: Seconds, es: seq<Event>, e: Event, slot: nat)
    ensures AllowedIn(w, es + [e], slot) ==
      AllowedIn(w, es, slot) + if AsksIn(w, e, slot) && Verdict(w, Replay(w, es), e.request).allowed then 1 else 0
  {
  }

  lemma AllowedOnSide(cfg: Config, acts: seq<Action>, side: Side, key: string, slot: nat)
    requires ValidRun(cfg, acts) && acts != []
    ensures var s := Exec(cfg, Front(acts));
      var e := EventOf(cfg, s, Last(acts), side);
      AllowedIn(cfg.w, Events(cfg, acts, side, key), slot)
        == AllowedIn(cfg.w, Events(cfg, Front(acts), side, key), slot)
         + if Allows(cfg.w, MapOf(s, side), e, key, slot) then 1 else 0
  {
    hide AllowedIn;
    var s := Exec(cfg, Front(acts));
    var e := EventOf(cfg, s, Last(acts), side);
    CounterIsReplay(cfg, Front(acts), side, key);
    if e.Some? && e.value.key == key {
      AllowedInStep(cfg.w, Events(cfg, Front(acts), side, key), e.value.event, slot);
    }
  }

  lemma KeyOrAddress(apiKey: string, other: string)
    ensures UNKNOWN_KEY_PREFIX + apiKey != UNKNOWN_IP_PREFIX + other
    ensures UNKNOWN_KEY_PREFIX + apiKey == UNKNOWN_KEY_PREFIX + other ==> apiKey == other
  {
    assert (UNKNOWN_KEY_PREFIX + apiKey)[0] == 'k' && (UNKNOWN_IP_PREFIX + other)[0] == 'i';
    assert (UNKNOWN_KEY_PREFIX + apiKey)[4..] == apiKey && (UNKNOWN_KEY_PREFIX + other)[4..] == other;
  }

  /** A call of a client is decided by exactly one of its two counters, and by nobody else's. */
  lemma OneCounterDecides(cfg: Config, s: State, a: Action, apiKey: string, slot: nat)
    requires Enabled(cfg, s, a) && apiKey != ""
    ensures var known := Allows(cfg.w, s.known, EventOf(cfg, s, a, KnownSide), apiKey, slot);
      var shared := Allows(cfg.w, s.unknown, EventOf(cfg, s, a, UnknownSide), UNKNOWN_KEY_PREFIX + apiKey, slot);
      && !(known && shared)
      && (AdmitsFor(cfg, s, a, apiKey, slot) <==> known || shared)
  {
    hide Verdict;
    if a.ApplyRequest? {
      var call := s.pending[a.thread].call;
      KeyOrAddress(apiKey, call.apiKey);
      KeyOrAddress(apiKey, call.ip);
    }
  }

  lemma {:induction false} CallsAreSplit(cfg: Config, acts: seq<Action>, apiKey: string, slot: nat)
    requires ValidRun(cfg, acts) && apiKey != ""
    ensures AllowedCalls(cfg, acts, apiKey, slot)
      == AllowedIn(cfg.w, KnownEvents(cfg, acts, apiKey), slot) + AllowedIn(cfg.w, SharedEvents(cfg, acts, apiKey), slot)
  {
    if acts != [] {
      hide AllowedIn;
      CallsAreSplit(cfg, Front(acts), apiKey, slot);
      OneCounterDecides(cfg, Exec(cfg, Front(acts)), Last(acts), apiKey, slot);
      AllowedOnSide(cfg, acts, KnownSide, apiKey, slot);
      AllowedOnSide(cfg, acts, UnknownSide, UNKNOWN_KEY_PREFIX + apiKey, slot);
    }
  }

  /** No lookup of the slot returned more than `lmax`. */
  predicate LimitsIn(w: Seconds, es: seq<Event>, slot: nat, lmax: nat) {
    forall i :: 0 <= i < |es| && AsksIn(w, es[i], slot) ==> es[i].request.policy.limit <= lmax
  }

  lemma KnownCap(cfg: Config, acts: seq<Action>, apiKey: string, slot: nat, lmax: nat)
    requires ValidRun(cfg, acts)
    requires LimitsIn(cfg.w, KnownEvents(cfg, acts, apiKey), slot, lmax) && 0 <= lmax + cfg.limits.burst
    ensures CapIn(cfg.w, KnownEvents(cfg, acts, apiKey), slot, lmax + cfg.limits.burst)
  {
    var es := KnownEvents(cfg, acts, apiKey);
    KnownEventsCarryBurst(cfg, acts, apiKey);
    assert forall i :: 0 <= i < |es| ==> es[i] in es;
  }

  lemma KnownPart(cfg: Config, acts: seq<Action>, apiKey: string, slot: nat, lmax: nat)
    requires cfg.Sound() && ValidRun(cfg, acts)
    requires LimitsIn(cfg.w, KnownEvents(cfg, acts, apiKey), slot, lmax)
    ensures var es, cap := KnownEvents(cfg, acts, apiKey), lmax + cfg.limits.burst;
      && AllowedIn(cfg.w, es, slot) <= (1 + Stale(cfg.w, es, slot) + LossesIn(cfg.w, es, slot)) * cap
      && (InOrder(cfg.w, es) ==> AllowedIn(cfg.w, es, slot) <= (1 + DropsIn(cfg.w, es, slot)) * cap)
  {
    hide Stale, LossesIn, DropsIn, AllowedIn, InOrder, CapIn, LimitsIn, Events, ValidRun;
    var es, cap := KnownEvents(cfg, acts, apiKey), lmax + cfg.limits.burst;
    KnownCap(cfg, acts, apiKey, slot, lmax);
    OutOfOrderBound(cfg.w, es, slot, cap);
    if InOrder(cfg.w, es) {
      OrderedBound(cfg.w, es, slot, cap);
    }
  }

  lemma UnknownCap(cfg: Config, acts: seq<Action>, key: string, slot: nat)
    requires cfg.Sound() && ValidRun(cfg, acts)
    ensures var es := Events(cfg, acts, UnknownSide, key);
      && CapIn(cfg.w, es, slot, cfg.limits.globalLimit + cfg.limits.burst)
      && DropsIn(cfg.w, es, slot) == 0
      && forall i :: 0 <= i < |es| ==> IsGlobalEvent(cfg, es[i])
  {
    var es := Events(cfg, acts, UnknownSide, key);
    UnknownEventsAreGlobal(cfg, acts, key);
    assert forall i :: 0 <= i < |es| ==> es[i] in es;
    NoDropsIn(cfg.w, es, slot);
  }

  lemma SharedPart(cfg: Config, acts: seq<Action>, apiKey: string, slot: nat)
    requires cfg.Sound() && ValidRun(cfg, acts)
    ensures var es, cap := SharedEvents(cfg, acts, apiKey), cfg.limits.globalLimit + cfg.limits.burst;
      && AllowedIn(cfg.w, es, slot) <= (1 + Stale(cfg.w, es, slot) + LossesIn(cfg.w, es, slot)) * cap
      && (InOrder(cfg.w, es) ==> AllowedIn(cfg.w, es, slot) <= cap)
  {
    hide Stale, LossesIn, DropsIn, AllowedIn, InOrder, CapIn, Events, ValidRun;
    var es, cap := SharedEvents(cfg, acts, apiKey), cfg.limits.globalLimit + cfg.limits.burst;
    UnknownCap(cfg, acts, UNKNOWN_KEY_PREFIX + apiKey, slot);
    OutOfOrderBound(cfg.w, es, slot, cap);
    if InOrder(cfg.w, es) {
      OrderedBound(cfg.w, es, slot, cap);
    }
  }

  /** The bound for a client in any lock order: once the largest limit plus burst of its known counter, again for
      every stale request and every time that it was deleted in the slot, and the same for its shared counter. */
  lemma ClientBound(cfg: Config, acts: seq<Action>, apiKey: string, slot: nat, lmax: nat)
    requires cfg.Sound() && ValidRun(cfg, acts) && apiKey != ""
    requires LimitsIn(cfg.w, KnownEvents(cfg, acts, apiKey), slot, lmax)
    ensures var known, shared := KnownEvents(cfg, acts, apiKey), SharedEvents(cfg, acts, apiKey);
      AllowedCalls(cfg, acts, apiKey, slot)
        <= (1 + Stale(cfg.w, known, slot) + LossesIn(cfg.w, known, slot)) * (lmax + cfg.limits.burst)
         + (1 + Stale(cfg.w, shared, slot) + LossesIn(cfg.w, shared, slot))
           * (cfg.limits.globalLimit + cfg.limits.burst)
  {
    hide *;
    CallsAreSplit(cfg, acts, apiKey, slot);
    KnownPart(cfg, acts, apiKey, slot, lmax);
    SharedPart(cfg, acts, apiKey, slot);
  }

  /** With both histories of the client in order: (1 + D) * (lmax + burst) + (globalLimit + burst), where D counts the
      unconditional deletes of its known counter in the slot, for any sequence of lookup results and errors, with
      cleanup at work or not, and whatever other clients do. */
  lemma ClientBoundInOrder(cfg: Config, acts: seq<Action>, apiKey: string, slot: nat, lmax: nat)
    requires cfg.Sound() && ValidRun(cfg, acts) && apiKey != ""
    requires LimitsIn(cfg.w, KnownEvents(cfg, acts, apiKey), slot, lmax)
    requires InOrder(cfg.w, KnownEvents(cfg, acts, apiKey)) && InOrder(cfg.w, SharedEvents(cfg, acts, apiKey))
    ensures AllowedCalls(cfg, acts, apiKey, slot)
      <= (1 + DropsIn(cfg.w, KnownEvents(cfg, acts, apiKey), slot)) * (lmax + cfg.limits.burst)
       + (cfg.limits.globalLimit + cfg.limits.burst)
  {
    hide *;
    CallsAreSplit(cfg, acts, apiKey, slot);
    KnownPart(cfg, acts, apiKey, slot, lmax);
    SharedPart(cfg, acts, apiKey, slot);
  }

  /** The requests of the client get the locks of its counters within `lag` of their readings. */
  predicate ClientWithinLag(cfg: Config, acts: seq<Action>, apiKey: string, lag: nat)
    requires ValidRun(cfg, acts)
  {
    && KeyWithinLag(cfg, acts, KnownSide, apiKey, lag)
    && KeyWithinLag(cfg, acts, UnknownSide, UNKNOWN_KEY_PREFIX + apiKey, lag)
  }

  /** The bound holds if the client's requests come in the order of their readings and wait a window at most. */
  lemma ClientBoundWithinLag(cfg: Config, acts: seq<Action>, apiKey: string, slot: nat, lmax: nat)
    requires cfg.Sound() && ValidRun(cfg, acts) && apiKey != ""
    requires LimitsIn(cfg.w, KnownEvents(cfg, acts, apiKey), slot, lmax)
    requires ClientWithinLag(cfg, acts, apiKey, WindowLength(cfg.w))
    requires AskOrdered(KnownEvents(cfg, acts, apiKey)) && AskOrdered(SharedEvents(cfg, acts, apiKey))
    ensures AllowedCalls(cfg, acts, apiKey, slot)
      <= (1 + DropsIn(cfg.w, KnownEvents(cfg, acts, apiKey), slot)) * (lmax + cfg.limits.burst)
       + (cfg.limits.globalLimit + cfg.limits.burst)
  {
    LagIsInOrder(cfg, acts, KnownSide, apiKey);
    LagIsInOrder(cfg, acts, UnknownSide, UNKNOWN_KEY_PREFIX + apiKey);
    ClientBoundInOrder(cfg, acts, apiKey, slot, lmax);
  }

  /** It holds without a word about order if the client's requests never wait. */
  lemma PromptClientBound(cfg: Config, acts: seq<Action>, apiKey: string, slot: nat, lmax: nat)
    requires cfg.Sound() && ValidRun(cfg, acts) && apiKey != "" && ClientWithinLag(cfg, acts, apiKey, 0)
    requires LimitsIn(cfg.w, KnownEvents(cfg, acts, apiKey), slot, lmax)
    ensures AllowedCalls(cfg, acts, apiKey, slot)
      <= (1 + DropsIn(cfg.w, KnownEvents(cfg, acts, apiKey), slot)) * (lmax + cfg.limits.burst)
       + (cfg.limits.globalLimit + cfg.limits.burst)
  {
    PromptIsInOrder(cfg, acts, KnownSide, apiKey);
    PromptIsInOrder(cfg, acts, UnknownSide, UNKNOWN_KEY_PREFIX + apiKey);
    ClientBoundInOrder(cfg, acts, apiKey, slot, lmax);
  }

  /** In any interval of `k` windows the service allows an unknown key or address whose history is in order at most
      `k + 1` times the global limit plus burst, while cleanup collects as it will. */
  lemma UnknownIntervalBound(cfg: Config, acts: seq<Action>, key: string, from: nat, k: nat)
    requires cfg.Sound() && ValidRun(cfg, acts) && InOrder(cfg.w, Events(cfg, acts, UnknownSide, key))
    ensures Intervals.AllowedBetween(
      cfg.w, Events(cfg, acts, UnknownSide, key), from, from + k * WindowLength(cfg.w))
      <= (k + 1) * (cfg.limits.globalLimit + cfg.limits.burst)
  {
    hide Events, ValidRun, InOrder, CapIn, DropsIn, Intervals.AllowedBetween;
    UnknownCap(cfg, acts, key, 0);
    Intervals.AnyIntervalBound(
      cfg.w, Events(cfg, acts, UnknownSide, key), from, k, cfg.limits.globalLimit + cfg.limits.burst);
  }

  /** Every decision of the service, of either map, on a counter whose history is in order: the k-th request of a slot
      is admitted just when k is at most its own limit plus burst, however often the counter was collected before.
      Only an unconditional delete in the slot, which unknown counters never suffer, starts the count again. */
  lemma DecisionIsExact(cfg: Config, acts: seq<Action>, side: Side)
    requires cfg.Sound() && ValidRun(cfg, acts) && acts != [] && Last(acts).ApplyRequest?
    requires EventOf(cfg, Exec(cfg, Front(acts)), Last(acts), side).Some?
    requires var e := EventOf(cfg, Exec(cfg, Front(acts)), Last(acts), side).value;
      var es := Events(cfg, acts, side, e.key);
      && InOrder(cfg.w, es)
      && (side.KnownSide? ==> DropsIn(cfg.w, es, SlotOf(e.event.request.now, cfg.w)) == 0)
    ensures var s := Exec(cfg, Front(acts));
      var e := EventOf(cfg, s, Last(acts), side).value;
      var k := AskedIn(cfg.w, Events(cfg, acts, side, e.key), SlotOf(e.event.request.now, cfg.w));
      IsAdmitted(cfg, s, Last(acts)) <==> k <= e.event.request.policy.Cap()
  {
    hide Verdict, Exec, Replay, DropsIn, InOrder;
    var s := Exec(cfg, Front(acts));
    var e := EventOf(cfg, s, Last(acts), side).value;
    var slot, es := SlotOf(e.event.request.now, cfg.w), Events(cfg, acts, side, e.key);
    assert es == Events(cfg, Front(acts), side, e.key) + [e.event];
    assert Front(es) == Events(cfg, Front(acts), side, e.key);
    CounterIsReplay(cfg, Front(acts), side, e.key);
    if side.UnknownSide? {
      UnknownCap(cfg, acts, e.key, slot);
    }
    ExactAdmission(cfg.w, es, slot);
  }

  /** The history of the counter that decides a call, by the reply of Redis. */
  function DecidingEvents(cfg: Config, acts: seq<Action>, call: Call): seq<Event>
    requires ValidRun(cfg, acts)
  {
    if call.apiKey == "" then Events(cfg, acts, UnknownSide, "ip:" + call.ip)
    else match call.reply
      case Value(Some(_)) => Events(cfg, acts, KnownSide, call.apiKey)
      case Value(None) => Events(cfg, acts, UnknownSide, "key:" + call.apiKey)
      case NoLimit => Events(cfg, acts, UnknownSide, "key:" + call.apiKey)
      case LimitUnreachable => Events(cfg, acts, UnknownSide, "key:" + call.apiKey)
  }

  /** Limit plus burst of a call: the number that Redis has returned, or else the global one. */
  function DecidingCap(cfg: Config, call: Call): int {
    if call.apiKey != "" && call.reply.Value? && call.reply.parsed.Some? then call.reply.parsed.value + cfg.limits.burst
    else cfg.limits.globalLimit + cfg.limits.burst
  }

  /** Every decision of the service, by the reply of Redis: a call is the k-th of its slot on the counter of its own
      key only if Redis has returned a number, and on the shared counter in every other case, an outage included; it
      is admitted just when k is at most that number, or the global limit, plus burst. */
  lemma DecisionByReply(cfg: Config, acts: seq<Action>, thread: nat)
    requires ValidRun(cfg, acts) && Enabled(cfg, Exec(cfg, acts), ApplyRequest(thread))
    requires var p := Exec(cfg, acts).pending[thread];
      && (p.call.apiKey != "" || p.call.ip != "")
      && Continues(cfg.w, DecidingEvents(cfg, acts, p.call), p.now)
    ensures var s := Exec(cfg, acts);
      var p := s.pending[thread];
      var k := AskedIn(cfg.w, DecidingEvents(cfg, acts, p.call), SlotOf(p.now, cfg.w)) + 1;
      IsAdmitted(cfg, s, ApplyRequest(thread)) <==> k <= DecidingCap(cfg, p.call)
  {
    hide Serves, Exec, Events, Replay, Continues, AskedIn, Step;
    var s := Exec(cfg, acts);
    var p, t := s.pending[thread], Step(cfg, s, ApplyRequest(thread));
    var call, es := p.call, DecidingEvents(cfg, acts, p.call);
    var admitted := IsAdmitted(cfg, s, ApplyRequest(thread));
    RequestServes(cfg, s, thread);
    if call.apiKey == "" {
      CounterIsReplay(cfg, acts, UnknownSide, "ip:" + call.ip);
      KthOfAddress(
        cfg.w, cfg.limits, call.ip, call.reply, p.now, s.known, t.known, s.unknown, t.unknown, admitted, es);
    } else if call.reply.Value? && call.reply.parsed.Some? {
      CounterIsReplay(cfg, acts, KnownSide, call.apiKey);
      KthWithLimit(cfg.w, cfg.limits, call.apiKey, call.ip, call.reply.parsed.value, p.now,
        s.known, t.known, s.unknown, t.unknown, admitted, es);
    } else {
      CounterIsReplay(cfg, acts, UnknownSide, "key:" + call.apiKey);
      KthWithoutLimit(cfg.w, cfg.limits, call.apiKey, call.ip, call.reply, p.now,
        s.known, t.known, s.unknown, t.unknown, admitted, es);
    }
  }
}
