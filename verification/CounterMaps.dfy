/** The two maps of counters, updated in place under their mutex. Each method is one critical section; the
    clock reading that the source takes before the lock is the parameter `now`. */
module CounterMaps {
  import opened Clock
  import opened Wrappers
  import opened Counters

  type CounterMap = map<string, Counter>

  function Find(m: CounterMap, key: string): Option<Counter> {
    if key in m then Some(m[key]) else None
  }

  function Put(m: CounterMap, key: string, o: Option<Counter>): CounterMap {
    if o.Some? then m[key := o.value] else m - {key}
  }

  /** What an event of `key` does to the whole map. */
  function Act(w: Seconds, m: CounterMap, key: string, e: Event): CounterMap {
    Put(m, key, Apply(w, Find(m, key), e))
  }

  /** A request in numbers, for the whole map: only the counter of `key` changes. */
  predicate CountsIn(
    w: Seconds, before: CounterMap, after: CounterMap, key: string, now: nat, limit: int, burst: int, line: int,
    d: Decision)
  {
    && key in after && after - {key} == before - {key}
    && Counts(w, if key in before then Some(before[key]) else None, now, limit, burst, line, after[key], d)
  }

  lemma ActCounts(w: Seconds, m: CounterMap, key: string, r: Request)
    ensures CountsIn(w, m, Act(w, m, key, Ask(r)), key, r.now, r.policy.limit, r.policy.burst, r.policy.line,
      Verdict(w, Find(m, key), r))
  {
    RecordCounts(w, Find(m, key), r);
    assert Act(w, m, key, Ask(r)) - {key} == m - {key};
  }

  /** The same, seen from the caller, who is only told whether the request is allowed. */
  predicate ServesIn(
    w: Seconds, before: CounterMap, after: CounterMap, key: string, now: nat, limit: int, burst: int, line: int,
    allowed: bool)
  {
    && key in after
    && var n := after[key].windowCount;
      CountsIn(w, before, after, key, now, limit, burst, line,
        Decision(allowed, n, limit, burst, limit < n <= limit + burst))
  }

  datatype Snapshot = Entry(key: string, counter: Counter)

  /** A snapshot lists every counter once, in any order. */
  predicate IsSnapshot(m: CounterMap, snaps: seq<Snapshot>) {
    && (forall i :: 0 <= i < |snaps| ==> snaps[i].key in m && m[snaps[i].key] == snaps[i].counter)
    && (forall i, j :: 0 <= i < j < |snaps| ==> snaps[i].key != snaps[j].key)
    && forall k :: k in m ==> exists i :: 0 <= i < |snaps| && snaps[i].key == k
  }

  /** A snapshot in the making: everything but the keys in `todo` is listed. */
  predicate Lists(m: CounterMap, snaps: seq<Snapshot>, todo: set<string>) {
    && (forall i :: 0 <= i < |snaps| ==> snaps[i].key in m && m[snaps[i].key] == snaps[i].counter)
    && (forall i :: 0 <= i < |snaps| ==> snaps[i].key !in todo)
    && (forall i, j :: 0 <= i < j < |snaps| ==> snaps[i].key != snaps[j].key)
    && forall k :: k in m && k !in todo ==> exists i :: 0 <= i < |snaps| && snaps[i].key == k
  }

  lemma ListsStep(m: CounterMap, snaps: seq<Snapshot>, todo: set<string>, k: string)
    requires Lists(m, snaps, todo) && k in todo && k in m
    ensures Lists(m, snaps + [Entry(k, m[k])], todo - {k})
  {
    var more := snaps + [Entry(k, m[k])];
    forall j | j in m && j !in todo - {k}
      ensures exists i :: 0 <= i < |more| && more[i].key == j
    {
      if j == k {
        assert more[|snaps|].key == j;
      } else {
        var i :| 0 <= i < |snaps| && snaps[i].key == j;
        assert more[i].key == j;
      }
    }
  }

  class UnknownCounter {
    const firstRequest: nat
    var lastRequest: nat
    var total: nat
    var windowCount: nat
    var slot: nat
    var burstHits: nat
    var abuseHits: nat

    constructor (now: nat, currentSlot: nat)
      ensures Value() == Counter(now, now, 0, 0, currentSlot, 0, 0)
    {
      firstRequest, lastRequest, slot := now, now, currentSlot;
      total, windowCount, burstHits, abuseHits := 0, 0, 0, 0;
    }

    function Value(): Counter
      reads this
    {
      Counter(firstRequest, lastRequest, total, windowCount, slot, burstHits, abuseHits)
    }

    /** The part of RecordRequest that updates the counter, entered with the lock held. */
    method Count(now: nat, currentSlot: nat, globalLimit: int, burst: int, abuseMultiplier: int, ghost w: Seconds)
      returns (d: Decision)
      requires currentSlot == SlotOf(now, w)
      modifies this
      ensures var r := Request(now, GlobalPolicy(globalLimit, burst, abuseMultiplier));
        Value() == Record(w, Some(old(Value())), r) && d == Verdict(w, Some(old(Value())), r)
      ensures Counts(w, Some(old(Value())), now, globalLimit, burst, globalLimit * abuseMultiplier, Value(), d)
    {
      if currentSlot != slot {
        if windowCount > globalLimit * abuseMultiplier {
          abuseHits := abuseHits + 1;
        }
        slot := currentSlot;
        windowCount := 0;
      }
      windowCount := windowCount + 1;
      total := total + 1;
      lastRequest := now;
      if windowCount > globalLimit + burst {
        return Decision(false, windowCount, globalLimit, burst, false);
      }
      var inBurst := windowCount > globalLimit;
      if inBurst {
        burstHits := burstHits + 1;
      }
      return Decision(true, windowCount, globalLimit, burst, inBurst);
    }
  }

  class UnknownMap {
    const windowS: Seconds
    var counters: map<string, UnknownCounter>
    /** The values of all counters. */
    ghost var contents: CounterMap
    /** The counter objects that belong to this map. */
    ghost var repr: set<UnknownCounter>

    constructor (windowSeconds: Seconds)
      ensures Valid() && windowS == windowSeconds && contents == map[] && repr == {}
    {
      windowS, counters, contents, repr := windowSeconds, map[], map[], {};
    }

    /** Different keys have different counter objects. */
    ghost predicate Valid()
      reads this, repr
    {
      && (forall j, k :: j in counters && k in counters && j != k ==> counters[j] != counters[k])
      && contents.Keys == counters.Keys
      && (forall k :: k in counters ==> counters[k] in repr)
      && forall k :: k in counters ==> contents[k] == counters[k].Value()
    }

    /** Creates the counter of `key` if it is missing. */
    method CreateIfMissing(key: string, now: nat, currentSlot: nat)
      requires Valid()
      modifies this
      ensures Valid() && key in counters && old(repr) <= repr && fresh(repr - old(repr))
      ensures contents == if key in old(contents) then old(contents)
        else old(contents)[key := Counter(now, now, 0, 0, currentSlot, 0, 0)]
    {
      if key !in counters {
        var c := new UnknownCounter(now, currentSlot);
        counters, repr := counters[key := c], repr + {c};
        contents := contents[key := c.Value()];
      }
    }

    /** One request of a counter that is there. */
    method CountAt(key: string, now: nat, currentSlot: nat, globalLimit: int, burst: int, abuseMultiplier: int)
      returns (d: Decision)
      requires Valid() && key in counters && currentSlot == SlotOf(now, windowS)
      modifies this`contents, counters[key]
      ensures Valid()
      ensures var r := Request(now, GlobalPolicy(globalLimit, burst, abuseMultiplier));
        && contents == old(contents)[key := Record(windowS, Some(old(contents)[key]), r)]
        && d == Verdict(windowS, Some(old(contents)[key]), r)
    {
      hide Counts, Record, Verdict;
      var c := counters[key];
      d := c.Count(now, currentSlot, globalLimit, burst, abuseMultiplier, windowS);
      contents := contents[key := c.Value()];
    }

    method RecordRequest(now: nat, key: string, globalLimit: int, burst: int, abuseMultiplier: int)
      returns (d: Decision)
      requires Valid()
      modifies this, repr
      ensures Valid() && fresh(repr - old(repr))
      ensures var r := Request(now, GlobalPolicy(globalLimit, burst, abuseMultiplier));
        && contents == Act(windowS, old(contents), key, Ask(r))
        && d == Verdict(windowS, Find(old(contents), key), r)
      ensures CountsIn(
        windowS, old(contents), contents, key, now, globalLimit, burst, globalLimit * abuseMultiplier, d)
    {
      hide Counts, CountsIn, Record, Verdict;
      ghost var r := Request(now, GlobalPolicy(globalLimit, burst, abuseMultiplier));
      ActCounts(windowS, contents, key, r);
      NewIsFresh(windowS, r);
      CreateIfMissing(key, now, SlotOf(now, windowS));
      d := CountAt(key, now, SlotOf(now, windowS), globalLimit, burst, abuseMultiplier);
    }

    method Snapshot() returns (out: seq<Snapshot>)
      requires Valid()
      ensures IsSnapshot(contents, out)
    {
      out := [];
      var todo := counters.Keys;
      while todo != {}
        invariant todo <= counters.Keys
        invariant Lists(contents, out, todo)
      {
        var k :| k in todo;
        ListsStep(contents, out, todo, k);
        out := out + [Entry(k, counters[k].Value())];
        todo := todo - {k};
      }
    }

    method Get(key: string) returns (o: Option<Counter>)
      requires Valid()
      ensures o == Find(contents, key)
    {
      o := if key in counters then Some(counters[key].Value()) else None;
    }

    method DeleteIfInactive(key: string, now: nat) returns (deleted: bool)
      requires Valid()
      modifies this
      ensures Valid() && repr == old(repr)
      ensures contents == Act(windowS, old(contents), key, Collect(now))
      ensures deleted <==> key in old(contents) && key !in contents
      ensures deleted <==>
        && key in old(contents) && old(contents)[key].slot != SlotOf(now, windowS)
        && now - old(contents)[key].lastRequest >= 2 * WindowLength(windowS)
      ensures contents == if deleted then old(contents) - {key} else old(contents)
    {
      if key !in counters {
        return false;
      }
      var c := counters[key];
      if IsInactive(c.slot, c.lastRequest, now, windowS) {
        counters, contents := counters - {key}, contents - {key};
        return true;
      }
      return false;
    }
  }

  class KnownCounter {
    const firstRequest: nat
    var lastRequest: nat
    var total: nat
    var windowCount: nat
    var slot: nat
    var burstHits: nat
    var violationHits: nat

    constructor (now: nat, currentSlot: nat)
      ensures Value() == Counter(now, now, 0, 0, currentSlot, 0, 0)
    {
      firstRequest, lastRequest, slot := now, now, currentSlot;
      total, windowCount, burstHits, violationHits := 0, 0, 0, 0;
    }

    function Value(): Counter
      reads this
    {
      Counter(firstRequest, lastRequest, total, windowCount, slot, burstHits, violationHits)
    }

    /** The part of RecordRequest that updates the counter, entered with the lock held. */
    method Count(now: nat, currentSlot: nat, limit: int, burst: int, ghost w: Seconds) returns (d: Decision)
      requires currentSlot == SlotOf(now, w)
      modifies this
      ensures var r := Request(now, KnownPolicy(limit, burst));
        Value() == Record(w, Some(old(Value())), r) && d == Verdict(w, Some(old(Value())), r)
      ensures Counts(w, Some(old(Value())), now, limit, burst, limit, Value(), d)
    {
      if currentSlot != slot {
        if windowCount > limit {
          violationHits := violationHits + 1;
        }
        slot := currentSlot;
        windowCount := 0;
      }
      windowCount := windowCount + 1;
      total := total + 1;
      lastRequest := now;
      if windowCount > limit + burst {
        return Decision(false, windowCount, limit, burst, false);
      }
      var inBurst := windowCount > limit;
      if inBurst {
        burstHits := burstHits + 1;
      }
      return Decision(true, windowCount, limit, burst, inBurst);
    }
  }

  class KnownMap {
    const windowS: Seconds
    var counters: map<string, KnownCounter>
    /** The values of all counters. */
    ghost var contents: CounterMap
    /** The counter objects that belong to this map. */
    ghost var repr: set<KnownCounter>

    constructor (windowSeconds: Seconds)
      ensures Valid() && windowS == windowSeconds && contents == map[] && repr == {}
    {
      windowS, counters, contents, repr := windowSeconds, map[], map[], {};
    }

    /** Different keys have different counter objects. */
    ghost predicate Valid()
      reads this, repr
    {
      && (forall j, k :: j in counters && k in counters && j != k ==> counters[j] != counters[k])
      && contents.Keys == counters.Keys
      && (forall k :: k in counters ==> counters[k] in repr)
      && forall k :: k in counters ==> contents[k] == counters[k].Value()
    }

    /** Creates the counter of `key` if it is missing. */
    method CreateIfMissing(key: string, now: nat, currentSlot: nat)
      requires Valid()
      modifies this
      ensures Valid() && key in counters && old(repr) <= repr && fresh(repr - old(repr))
      ensures contents == if key in old(contents) then old(contents)
        else old(contents)[key := Counter(now, now, 0, 0, currentSlot, 0, 0)]
    {
      if key !in counters {
        var c := new KnownCounter(now, currentSlot);
        counters, repr := counters[key := c], repr + {c};
        contents := contents[key := c.Value()];
      }
    }

    /** One request of a counter that is there. */
    method CountAt(key: string, now: nat, currentSlot: nat, limit: int, burst: int) returns (d: Decision)
      requires Valid() && key in counters && currentSlot == SlotOf(now, windowS)
      modifies this`contents, counters[key]
      ensures Valid()
      ensures var r := Request(now, KnownPolicy(limit, burst));
        && contents == old(contents)[key := Record(windowS, Some(old(contents)[key]), r)]
        && d == Verdict(windowS, Some(old(contents)[key]), r)
    {
      hide Counts, Record, Verdict;
      var c := counters[key];
      d := c.Count(now, currentSlot, limit, burst, windowS);
      contents := contents[key := c.Value()];
    }

    method RecordRequest(now: nat, key: string, limit: int, burst: int) returns (d: Decision)
      requires Valid()
      modifies this, repr
      ensures Valid() && fresh(repr - old(repr))
      ensures var r := Request(now, KnownPolicy(limit, burst));
        && contents == Act(windowS, old(contents), key, Ask(r))
        && d == Verdict(windowS, Find(old(contents), key), r)
      ensures CountsIn(windowS, old(contents), contents, key, now, limit, burst, limit, d)
    {
      hide Counts, CountsIn, Record, Verdict;
      ghost var r := Request(now, KnownPolicy(limit, burst));
      ActCounts(windowS, contents, key, r);
      NewIsFresh(windowS, r);
      CreateIfMissing(key, now, SlotOf(now, windowS));
      d := CountAt(key, now, SlotOf(now, windowS), limit, burst);
    }

    method Snapshot() returns (out: seq<Snapshot>)
      requires Valid()
      ensures IsSnapshot(contents, out)
    {
      out := [];
      var todo := counters.Keys;
      while todo != {}
        invariant todo <= counters.Keys
        invariant Lists(contents, out, todo)
      {
        var k :| k in todo;
        ListsStep(contents, out, todo, k);
        out := out + [Entry(k, counters[k].Value())];
        todo := todo - {k};
      }
    }

    method Delete(key: string)
      requires Valid()
      modifies this
      ensures Valid() && repr == old(repr)
      ensures contents == Act(windowS, old(contents), key, Drop)
      ensures contents == old(contents) - {key}
    {
      counters, contents := counters - {key}, contents - {key};
    }

    method DeleteIfInactive(key: string, now: nat) returns (deleted: bool)
      requires Valid()
      modifies this
      ensures Valid() && repr == old(repr)
      ensures contents == Act(windowS, old(contents), key, Collect(now))
      ensures deleted <==> key in old(contents) && key !in contents
      ensures deleted <==>
        && key in old(contents) && old(contents)[key].slot != SlotOf(now, windowS)
        && now - old(contents)[key].lastRequest >= 2 * WindowLength(windowS)
      ensures contents == if deleted then old(contents) - {key} else old(contents)
    {
      if key !in counters {
        return false;
      }
      var c := counters[key];
      if IsInactive(c.slot, c.lastRequest, now, windowS) {
        counters, contents := counters - {key}, contents - {key};
        return true;
      }
      return false;
    }
  }
}
