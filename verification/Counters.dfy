/** One fixed-window counter: what a request, a collection and a deletion do to it.

    `KnownCounter` and `UnknownCounter` differ only in the name of their last field and in the count above
    which a finished slot is charged to it, so both are values of `Counter` under a `Policy`. */
module Counters {
  import opened Clock
  import opened Wrappers

  /** `hits` is ViolationHits of a known counter and AbuseHits of an unknown one. */
  datatype Counter = Counter(
    firstRequest: nat, lastRequest: nat, total: nat, windowCount: nat, slot: nat, burstHits: nat, hits: nat)

  /** `line` is the count that a slot must exceed to be charged to `hits`. */
  datatype Policy = Policy(limit: int, burst: int, line: int)
  {
    function Cap(): int {
      limit + burst
    }

    /** What a validated configuration gives, and a known key's limit when it is not negative. */
    predicate Sound() {
      0 <= limit && 0 <= burst && 0 <= line
    }
  }

  function KnownPolicy(limit: int, burst: int): Policy {
    Policy(limit, burst, limit)
  }

  function GlobalPolicy(globalLimit: int, burst: int, abuseMultiplier: int): Policy {
    Policy(globalLimit, burst, globalLimit * abuseMultiplier)
  }

  /** `now` is the clock reading of the request, which was taken before the lock. */
  datatype Request = Request(now: nat, policy: Policy)

  datatype Decision = Decision(allowed: bool, windowCount: nat, limit: int, burst: int, inBurst: bool)

  /** The decision for the `n`-th request of a slot. */
  function Judge(n: nat, p: Policy): Decision {
    if n > p.Cap() then Decision(false, n, p.limit, p.burst, false)
    else Decision(true, n, p.limit, p.burst, n > p.limit)
  }

  function Fresh(w: Seconds, now: nat): Counter {
    Counter(now, now, 0, 0, SlotOf(now, w), 0, 0)
  }

  /** Leaves the slot of `c` for the slot of `now`, charging the finished one. */
  function Rollover(w: Seconds, c: Counter, now: nat, line: int): Counter {
    if SlotOf(now, w) == c.slot then c
    else c.(slot := SlotOf(now, w), windowCount := 0, hits := if c.windowCount > line then c.hits + 1 else c.hits)
  }

  /** The counter after a request. */
  function Record(w: Seconds, before: Option<Counter>, r: Request): Counter {
    var c := if before.None? then Fresh(w, r.now) else before.value;
    var open := Rollover(w, c, r.now, r.policy.line);
    var n := open.windowCount + 1;
    open.(windowCount := n,
          total := open.total + 1,
          lastRequest := r.now,
          burstHits := if Judge(n, r.policy).inBurst then open.burstHits + 1 else open.burstHits)
  }

  /** The decision on a request that finds the counter as `before`. */
  function Verdict(w: Seconds, before: Option<Counter>, r: Request): Decision {
    Judge(Record(w, before, r).windowCount, r.policy)
  }

  /** A missing counter is counted like a new one. */
  lemma NewIsFresh(w: Seconds, r: Request)
    ensures Record(w, None, r) == Record(w, Some(Counter(r.now, r.now, 0, 0, SlotOf(r.now, w), 0, 0)), r)
    ensures Verdict(w, None, r) == Verdict(w, Some(Counter(r.now, r.now, 0, 0, SlotOf(r.now, w), 0, 0)), r)
  {
  }

  /** A request in numbers: `after` and `d` are what it leaves and what it is told under `limit` and `burst`, and
      a slot that it closes is charged when its count exceeds `line`. */
  predicate Counts(
    w: Seconds, before: Option<Counter>, now: nat, limit: int, burst: int, line: int, after: Counter, d: Decision)
  {
    && d.windowCount == after.windowCount && d.limit == limit && d.burst == burst
    && (d.allowed <==> after.windowCount <= limit + burst)
    && (d.inBurst <==> limit < after.windowCount <= limit + burst)
    && after.lastRequest == now && after.slot == SlotOf(now, w)
    && match before
      case None =>
        && after.firstRequest == now && after.total == 1 && after.windowCount == 1 && after.hits == 0
        && after.burstHits == if d.inBurst then 1 else 0
      case Some(c) =>
        && after.firstRequest == c.firstRequest && after.total == c.total + 1
        && after.windowCount == (if c.slot == SlotOf(now, w) then c.windowCount + 1 else 1)
        && after.hits == (if c.slot != SlotOf(now, w) && c.windowCount > line then c.hits + 1 else c.hits)
        && after.burstHits == if d.inBurst then c.burstHits + 1 else c.burstHits
  }

  lemma RecordCounts(w: Seconds, before: Option<Counter>, r: Request)
    ensures Counts(
      w, before, r.now, r.policy.limit, r.policy.burst, r.policy.line, Record(w, before, r), Verdict(w, before, r))
  {
  }

  /** What can happen to one counter under its map's lock: a request, the conditional delete of a cleanup
      cycle that started at `now`, and an unconditional delete. */
  datatype Event = Ask(request: Request) | Collect(now: nat) | Drop

  function Apply(w: Seconds, before: Option<Counter>, e: Event): Option<Counter> {
    match e
    case Ask(r) => Some(Record(w, before, r))
    case Collect(now) =>
      if before.Some? && IsInactive(before.value.slot, before.value.lastRequest, now, w) then None else before
    case Drop => None
  }

  /** The counter after a whole history, in lock order. */
  function Replay(w: Seconds, es: seq<Event>): Option<Counter> {
    if es == [] then None else Apply(w, Replay(w, es[..|es| - 1]), es[|es| - 1])
  }

  /** The decision on the request at position `i` of a history. */
  function VerdictAt(w: Seconds, es: seq<Event>, i: nat): Decision
    requires i < |es| && es[i].Ask?
  {
    Verdict(w, Replay(w, es[..i]), es[i].request)
  }

  /** What every counter in memory satisfies. */
  predicate Consistent(w: Seconds, c: Counter) {
    && c.slot == SlotOf(c.lastRequest, w)
    && 1 <= c.windowCount <= c.total
    && c.burstHits <= c.total
    && c.hits < c.total
  }

  lemma ApplyConsistent(w: Seconds, before: Option<Counter>, e: Event)
    requires before.Some? ==> Consistent(w, before.value)
    ensures var after := Apply(w, before, e); after.Some? ==> Consistent(w, after.value)
  {
  }

  /** In any lock order, however far clock readings lag, a counter's slot is that of its last request. */
  lemma {:induction false} ReplayConsistent(w: Seconds, es: seq<Event>)
    ensures Replay(w, es).Some? ==> Consistent(w, Replay(w, es).value)
  {
    if es != [] {
      ReplayConsistent(w, es[..|es| - 1]);
      ApplyConsistent(w, Replay(w, es[..|es| - 1]), es[|es| - 1]);
    }
  }

  /** The slot test of the inactivity predicate is implied: two idle windows always end the slot. */
  lemma InactivityIsIdleness(w: Seconds, es: seq<Event>, now: nat)
    requires Replay(w, es).Some?
    ensures var c := Replay(w, es).value;
      IsInactive(c.slot, c.lastRequest, now, w) <==> now - c.lastRequest >= 2 * WindowLength(w)
  {
    ReplayConsistent(w, es);
    IdleIsInactive(w, Replay(w, es).value, now);
  }

  lemma IdleIsInactive(w: Seconds, c: Counter, now: nat)
    requires Consistent(w, c)
    ensures IsInactive(c.slot, c.lastRequest, now, w) <==> now - c.lastRequest >= 2 * WindowLength(w)
  {
  }
}
