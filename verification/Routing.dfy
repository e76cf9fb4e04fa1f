/** Choosing the counter that a request is charged to, and the result metrics. */
module Routing {
  import opened Clock
  import opened Wrappers
  import opened Counters
  import opened CounterMaps
  import opened AbuseStore
  import opened Bounds

  /** The settings that the limiter is built with. */
  datatype Limits = Limits(globalLimit: int, burst: int, abuseMultiplier: int)
  {
    function Global(): Policy {
      GlobalPolicy(globalLimit, burst, abuseMultiplier)
    }
  }

  /** What a request is limited by: nothing, its own limit, or the global limit. */
  datatype Route = FailOpen | Individual(key: string, policy: Policy) | Shared(key: string, policy: Policy)

  function RouteOf(limits: Limits, apiKey: string, ip: string, l: Lookup): Route {
    if apiKey == "" && ip == "" then FailOpen
    else if apiKey == "" then Shared(UNKNOWN_IP_PREFIX + ip, limits.Global())
    else if l.found && !l.failed then Individual(apiKey, KnownPolicy(l.limit, limits.burst))
    else Shared(UNKNOWN_KEY_PREFIX + apiKey, limits.Global())
  }

  /** What a call of Decide does to the two maps and answers, by the reply of Redis. A number is a limit of the key's
      own, counted under the key itself; everything else, an outage included, leaves the key to the global limit. */
  predicate Serves(
    w: Seconds, limits: Limits, apiKey: string, ip: string, reply: LimitReply, now: nat,
    known: CounterMap, known': CounterMap, unknown: CounterMap, unknown': CounterMap, allowed: bool)
  {
    var global, burst, line := limits.globalLimit, limits.burst, limits.globalLimit * limits.abuseMultiplier;
    if apiKey == "" && ip == "" then
      known' == known && unknown' == unknown && allowed
    else if apiKey == "" then
      known' == known && ServesIn(w, unknown, unknown', "ip:" + ip, now, global, burst, line, allowed)
    else
      match reply
      case Value(Some(limit)) =>
        unknown' == unknown && ServesIn(w, known, known', apiKey, now, limit, burst, limit, allowed)
      case Value(None) =>
        known' == known && ServesIn(w, unknown, unknown', "key:" + apiKey, now, global, burst, line, allowed)
      case NoLimit =>
        known' == known && ServesIn(w, unknown, unknown', "key:" + apiKey, now, global, burst, line, allowed)
      case LimitUnreachable =>
        known' == known && ServesIn(w, unknown, unknown', "key:" + apiKey, now, global, burst, line, allowed)
  }

  /** The counter that such a call is charged to, and the limit it is held against. */
  lemma ServesByPosition(
    w: Seconds, before: CounterMap, after: CounterMap, key: string, now: nat, limit: int, burst: int, line: int,
    allowed: bool, es: seq<Event>)
    requires ServesIn(w, before, after, key, now, limit, burst, line, allowed)
    requires Find(before, key) == Replay(w, es) && Continues(w, es, now)
    ensures allowed <==> AskedIn(w, es, SlotOf(now, w)) + 1 <= limit + burst
  {
    hide AskedIn, Replay, Continues;
    NextPosition(w, es, now);
  }

  /** The k-th request of a slot: a key whose limit Redis returns is admitted up to that limit plus burst. */
  lemma KthWithLimit(
    w: Seconds, limits: Limits, apiKey: string, ip: string, limit: int, now: nat,
    known: CounterMap, known': CounterMap, unknown: CounterMap, unknown': CounterMap, allowed: bool, es: seq<Event>)
    requires apiKey != "" && Find(known, apiKey) == Replay(w, es) && Continues(w, es, now)
    requires Serves(w, limits, apiKey, ip, Value(Some(limit)), now, known, known', unknown, unknown', allowed)
    ensures allowed <==> AskedIn(w, es, SlotOf(now, w)) + 1 <= limit + limits.burst
    ensures unknown' == unknown && known' - {apiKey} == known - {apiKey}
  {
    hide AskedIn, Replay, Continues;
    ServesByPosition(
      w, known, known', apiKey, now, limit, limits.burst, limit, allowed, es);
  }

  /** A key without one, and a key whose lookup fails in whatever way, is admitted up to the global limit plus burst. */
  lemma KthWithoutLimit(
    w: Seconds, limits: Limits, apiKey: string, ip: string, reply: LimitReply, now: nat,
    known: CounterMap, known': CounterMap, unknown: CounterMap, unknown': CounterMap, allowed: bool, es: seq<Event>)
    requires apiKey != "" && reply in {Value(None), NoLimit, LimitUnreachable}
    requires Find(unknown, "key:" + apiKey) == Replay(w, es) && Continues(w, es, now)
    requires Serves(w, limits, apiKey, ip, reply, now, known, known', unknown, unknown', allowed)
    ensures allowed <==> AskedIn(w, es, SlotOf(now, w)) + 1 <= limits.globalLimit + limits.burst
    ensures known' == known && unknown' - {"key:" + apiKey} == unknown - {"key:" + apiKey}
  {
    hide AskedIn, Replay, Continues;
    ServesByPosition(w, unknown, unknown', "key:" + apiKey, now, limits.globalLimit, limits.burst,
      limits.globalLimit * limits.abuseMultiplier, allowed, es);
  }

  /** And so is an address. */
  lemma KthOfAddress(
    w: Seconds, limits: Limits, ip: string, reply: LimitReply, now: nat,
    known: CounterMap, known': CounterMap, unknown: CounterMap, unknown': CounterMap, allowed: bool, es: seq<Event>)
    requires ip != "" && Find(unknown, "ip:" + ip) == Replay(w, es) && Continues(w, es, now)
    requires Serves(w, limits, "", ip, reply, now, known, known', unknown, unknown', allowed)
    ensures allowed <==> AskedIn(w, es, SlotOf(now, w)) + 1 <= limits.globalLimit + limits.burst
    ensures known' == known && unknown' - {"ip:" + ip} == unknown - {"ip:" + ip}
  {
    hide AskedIn, Replay, Continues;
    ServesByPosition(w, unknown, unknown', "ip:" + ip, now, limits.globalLimit, limits.burst,
      limits.globalLimit * limits.abuseMultiplier, allowed, es);
  }

  function KnownAfter(w: Seconds, known: CounterMap, route: Route, now: nat): CounterMap {
    if route.Individual? then Act(w, known, route.key, Ask(Request(now, route.policy))) else known
  }

  function UnknownAfter(w: Seconds, unknown: CounterMap, route: Route, now: nat): CounterMap {
    if route.Shared? then Act(w, unknown, route.key, Ask(Request(now, route.policy))) else unknown
  }

  predicate Admitted(w: Seconds, known: CounterMap, unknown: CounterMap, route: Route, now: nat) {
    match route
    case FailOpen => true
    case Individual(key, policy) => Verdict(w, Find(known, key), Request(now, policy)).allowed
    case Shared(key, policy) => Verdict(w, Find(unknown, key), Request(now, policy)).allowed
  }

  /** The routing functions do what is said by reply. */
  lemma RouteServes(
    w: Seconds, limits: Limits, apiKey: string, ip: string, reply: LimitReply, now: nat,
    known: CounterMap, unknown: CounterMap)
    ensures var route := RouteOf(limits, apiKey, ip, Answer(reply));
      Serves(w, limits, apiKey, ip, reply, now, known, KnownAfter(w, known, route, now),
        unknown, UnknownAfter(w, unknown, route, now), Admitted(w, known, unknown, route, now))
    ensures var route := RouteOf(limits, apiKey, ip, Answer(reply));
      && (!route.Individual? ==> KnownAfter(w, known, route, now) == known)
      && (!route.Shared? ==> UnknownAfter(w, unknown, route, now) == unknown)
  {
    hide Record, Verdict, CountsIn;
    var route := RouteOf(limits, apiKey, ip, Answer(reply));
    if route.Individual? {
      AskServes(w, known, route.key, Request(now, route.policy));
    } else if route.Shared? {
      AskServes(w, unknown, route.key, Request(now, route.policy));
    }
  }

  lemma AskServes(w: Seconds, m: CounterMap, key: string, r: Request)
    ensures ServesIn(w, m, Act(w, m, key, Ask(r)), key, r.now, r.policy.limit, r.policy.burst, r.policy.line,
      Verdict(w, Find(m, key), r).allowed)
  {
    hide Record;
    ActCounts(w, m, key, r);
  }

  /** Which result metric the answer moves: a key with a limit of its own is refused individually. */
  predicate MovesResult(apiKey: string, reply: LimitReply, allowed: bool, before: Tally, after: Tally) {
    var own := apiKey != "" && reply.Value? && reply.parsed.Some?;
    && after.allowed == before.allowed + (if allowed then 1 else 0)
    && after.blockedIndividual == before.blockedIndividual + (if !allowed && own then 1 else 0)
    && after.blockedGlobal == before.blockedGlobal + (if !allowed && !own then 1 else 0)
  }

  /** The limit lookup has failed: Redis is unreachable, or the stored limit is not a number. */
  predicate LookupFails(apiKey: string, reply: LimitReply) {
    apiKey != "" && (reply.LimitUnreachable? || (reply.Value? && reply.parsed.None?))
  }

  datatype Tally = Tally(allowed: nat, blockedIndividual: nat, blockedGlobal: nat)
  {
    function Total(): nat {
      allowed + blockedIndividual + blockedGlobal
    }

    /** Exactly one result counter moves with each request. */
    function Count(route: Route, admitted: bool): (t: Tally)
      requires route.FailOpen? ==> admitted
      ensures t.Total() == Total() + 1
    {
      if admitted then this.(allowed := allowed + 1)
      else if route.Individual? then this.(blockedIndividual := blockedIndividual + 1)
      else this.(blockedGlobal := blockedGlobal + 1)
    }
  }

  lemma CountMovesResult(limits: Limits, apiKey: string, ip: string, reply: LimitReply, allowed: bool, before: Tally)
    requires apiKey == "" && ip == "" ==> allowed
    ensures MovesResult(
      apiKey, reply, allowed, before, before.Count(RouteOf(limits, apiKey, ip, Answer(reply)), allowed))
  {
  }

  class Metrics {
    var requestsAllowed: nat
    var requestsBlockedIndividual: nat
    var requestsBlockedGlobal: nat
    var redisErrorsTotal: nat

    constructor ()
      ensures Results() == Tally(0, 0, 0)
    {
      requestsAllowed, requestsBlockedIndividual, requestsBlockedGlobal, redisErrorsTotal := 0, 0, 0, 0;
    }

    function Results(): Tally
      reads this
    {
      Tally(requestsAllowed, requestsBlockedIndividual, requestsBlockedGlobal)
    }

    method Inc(route: Route, admitted: bool)
      requires route.FailOpen? ==> admitted
      modifies this`requestsAllowed, this`requestsBlockedIndividual, this`requestsBlockedGlobal
      ensures Results() == old(Results()).Count(route, admitted)
    {
      if admitted {
        requestsAllowed := requestsAllowed + 1;
      } else if route.Individual? {
        requestsBlockedIndividual := requestsBlockedIndividual + 1;
      } else {
        requestsBlockedGlobal := requestsBlockedGlobal + 1;
      }
    }
  }

  class Limiter {
    const known: KnownMap
    const unknown: UnknownMap
    const store: Store
    const metrics: Metrics
    const limits: Limits

    ghost predicate Valid()
      reads known, known.repr, unknown, unknown.repr, store
    {
      known.Valid() && unknown.Valid() && store.Valid() && known.windowS == unknown.windowS
    }

    constructor (known: KnownMap, unknown: UnknownMap, store: Store, metrics: Metrics, limits: Limits)
      requires known.Valid() && unknown.Valid() && store.Valid() && known.windowS == unknown.windowS
      ensures Valid() && this.known == known && this.unknown == unknown && this.store == store
      ensures this.metrics == metrics && this.limits == limits
    {
      this.known, this.unknown, this.store, this.metrics, this.limits := known, unknown, store, metrics, limits;
    }

    /** The decision for one request; `reply` is what Redis answers if it is asked. */
    method Decide(apiKey: string, ip: string, reply: LimitReply, now: nat) returns (allowed: bool)
      requires Valid()
      modifies known, known.repr, unknown, unknown.repr, store, metrics
      ensures Valid()
      ensures fresh(known.repr - old(known.repr))
      ensures fresh(unknown.repr - old(unknown.repr))
      ensures var w, route := known.windowS, RouteOf(limits, apiKey, ip, Answer(reply));
        && known.contents == KnownAfter(w, old(known.contents), route, now)
        && unknown.contents == UnknownAfter(w, old(unknown.contents), route, now)
        && allowed == Admitted(w, old(known.contents), old(unknown.contents), route, now)
        && metrics.Results() == old(metrics.Results()).Count(route, allowed)
      ensures Serves(known.windowS, limits, apiKey, ip, reply, now,
        old(known.contents), known.contents, old(unknown.contents), unknown.contents, allowed)
      ensures MovesResult(apiKey, reply, allowed, old(metrics.Results()), metrics.Results())
      ensures metrics.redisErrorsTotal == old(metrics.redisErrorsTotal) + if LookupFails(apiKey, reply) then 1 else 0
      ensures store.records == old(store.records)
      ensures store.outcomes == old(store.outcomes) + if apiKey == "" then [] else [!reply.LimitUnreachable?]
      ensures store.healthy == if apiKey == "" then old(store.healthy) else !reply.LimitUnreachable?
    {
      hide Serves, KnownAfter, UnknownAfter, CountsIn, ServesIn;
      RouteServes(known.windowS, limits, apiKey, ip, reply, now, known.contents, unknown.contents);
      if apiKey == "" && ip == "" {
        metrics.Inc(FailOpen, true);
        return true;
      }
      if apiKey != "" {
        allowed := DecideWithKey(apiKey, reply, now);
      } else {
        allowed := DecideWithIP(ip, now);
      }
    }

    method DecideWithKey(apiKey: string, reply: LimitReply, now: nat) returns (allowed: bool)
      requires Valid() && apiKey != ""
      modifies known, known.repr, unknown, unknown.repr, store, metrics
      ensures Valid()
      ensures fresh(known.repr - old(known.repr))
      ensures fresh(unknown.repr - old(unknown.repr))
      ensures var w, route := known.windowS, RouteOf(limits, apiKey, "", Answer(reply));
        && known.contents == KnownAfter(w, old(known.contents), route, now)
        && unknown.contents == UnknownAfter(w, old(unknown.contents), route, now)
        && allowed == Admitted(w, old(known.contents), old(unknown.contents), route, now)
        && metrics.Results() == old(metrics.Results()).Count(route, allowed)
      ensures Serves(known.windowS, limits, apiKey, "", reply, now,
        old(known.contents), known.contents, old(unknown.contents), unknown.contents, allowed)
      ensures MovesResult(apiKey, reply, allowed, old(metrics.Results()), metrics.Results())
      ensures metrics.redisErrorsTotal == old(metrics.redisErrorsTotal) + if LookupFails(apiKey, reply) then 1 else 0
      ensures store.records == old(store.records)
      ensures store.outcomes == old(store.outcomes) + [!reply.LimitUnreachable?]
      ensures store.healthy <==> !reply.LimitUnreachable?
    {
      hide Serves, MovesResult, KnownAfter, UnknownAfter, Admitted;
      RouteServes(known.windowS, limits, apiKey, "", reply, now, known.contents, unknown.contents);
      CountMovesResult(limits, apiKey, "", reply, true, metrics.Results());
      CountMovesResult(limits, apiKey, "", reply, false, metrics.Results());
      var l := AskStore(reply);
      if l.found {
        allowed := DecideIndividual(apiKey, l.limit, now);
      } else {
        allowed := DecideShared(UNKNOWN_KEY_PREFIX + apiKey, now);
      }
    }

    /** The limit lookup; an error counts as "not found". */
    method AskStore(reply: LimitReply) returns (l: Lookup)
      requires Valid()
      modifies store, metrics`redisErrorsTotal
      ensures Valid() && store.records == old(store.records)
      ensures store.outcomes == old(store.outcomes) + [!reply.LimitUnreachable?]
      ensures store.healthy <==> !reply.LimitUnreachable?
      ensures l == Answer(reply) && metrics.Results() == old(metrics.Results())
      ensures metrics.redisErrorsTotal ==
        old(metrics.redisErrorsTotal) + if reply.LimitUnreachable? || reply == Value(None) then 1 else 0
    {
      l := store.LookupLimit(reply);
      if l.failed {
        metrics.redisErrorsTotal := metrics.redisErrorsTotal + 1;
      }
    }

    method DecideWithIP(ip: string, now: nat) returns (allowed: bool)
      requires Valid() && ip != ""
      modifies unknown, unknown.repr
      modifies metrics`requestsAllowed, metrics`requestsBlockedIndividual, metrics`requestsBlockedGlobal
      ensures Valid()
      ensures fresh(unknown.repr - old(unknown.repr))
      ensures var w, route := known.windowS, Shared(UNKNOWN_IP_PREFIX + ip, limits.Global());
        && unknown.contents == UnknownAfter(w, old(unknown.contents), route, now)
        && allowed == Admitted(w, old(known.contents), old(unknown.contents), route, now)
        && metrics.Results() == old(metrics.Results()).Count(route, allowed)
      ensures ServesIn(unknown.windowS, old(unknown.contents), unknown.contents, "ip:" + ip, now, limits.globalLimit,
        limits.burst, limits.globalLimit * limits.abuseMultiplier, allowed)
    {
      AskServes(unknown.windowS, unknown.contents, UNKNOWN_IP_PREFIX + ip, Request(now, limits.Global()));
      hide ServesIn;
      allowed := DecideShared(UNKNOWN_IP_PREFIX + ip, now);
    }

    /** The branch for a key with a limit of its own. */
    method DecideIndividual(apiKey: string, limit: int, now: nat) returns (allowed: bool)
      requires Valid()
      modifies known, known.repr
      modifies metrics`requestsAllowed, metrics`requestsBlockedIndividual, metrics`requestsBlockedGlobal
      ensures Valid()
      ensures fresh(known.repr - old(known.repr))
      ensures var w, route := known.windowS, Individual(apiKey, KnownPolicy(limit, limits.burst));
        && known.contents == KnownAfter(w, old(known.contents), route, now)
        && allowed == Admitted(w, old(known.contents), old(unknown.contents), route, now)
        && metrics.Results() == old(metrics.Results()).Count(route, allowed)
    {
      hide CountsIn, Act, Verdict;
      var d := known.RecordRequest(now, apiKey, limit, limits.burst);
      allowed := d.allowed;
      metrics.Inc(Individual(apiKey, KnownPolicy(limit, limits.burst)), allowed);
    }

    /** The common tail of both paths: one request against the global limit. */
    method DecideShared(mapKey: string, now: nat) returns (allowed: bool)
      requires Valid()
      modifies unknown, unknown.repr
      modifies metrics`requestsAllowed, metrics`requestsBlockedIndividual, metrics`requestsBlockedGlobal
      ensures Valid()
      ensures fresh(unknown.repr - old(unknown.repr))
      ensures var w, route := unknown.windowS, Shared(mapKey, limits.Global());
        && unknown.contents == UnknownAfter(w, old(unknown.contents), route, now)
        && allowed == Admitted(w, old(known.contents), old(unknown.contents), route, now)
        && metrics.Results() == old(metrics.Results()).Count(route, allowed)
    {
      hide CountsIn, Act, Verdict;
      var d := unknown.RecordRequest(now, mapKey, limits.globalLimit, limits.burst, limits.abuseMultiplier);
      allowed := d.allowed;
      metrics.Inc(Shared(mapKey, limits.Global()), allowed);
    }
  }
}
