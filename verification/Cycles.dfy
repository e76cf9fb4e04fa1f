/** One cleanup cycle as a function of what interleaves with it: the requests that take the lock between its
    own critical sections, and the replies of Redis. */
module Cycles {
  import opened Clock
  import opened Counters
  import opened CounterMaps
  import opened AbuseStore

  datatype Arrival = Arrival(key: string, request: Request)

  /** The map after a series of requests. */
  function Serve(w: Seconds, m: CounterMap, arrivals: seq<Arrival>): CounterMap {
    if arrivals == [] then m
    else
      var n := |arrivals| - 1;
      Act(w, Serve(w, m, arrivals[..n]), arrivals[n].key, Ask(arrivals[n].request))
  }

  lemma ServeStep(w: Seconds, m: CounterMap, arrivals: seq<Arrival>, a: Arrival)
    ensures Serve(w, m, arrivals + [a]) == Act(w, Serve(w, m, arrivals), a.key, Ask(a.request))
  {
  }

  /** What happens around one entry of the unknown snapshot: requests before the re-read, before the upsert
      and before the delete, and the fate of the upsert. */
  datatype Interlude =
    Interlude(beforeRead: seq<Arrival>, beforeUpsert: seq<Arrival>, beforeDelete: seq<Arrival>, upsert: Upsert)
  {
    function Traffic(): seq<Arrival> {
      beforeRead + beforeUpsert + beforeDelete
    }
  }

  datatype Ledger =
    Ledger(unknown: CounterMap, records: Records, outcomes: seq<bool>, deleted: nat, transferred: nat, errors: nat)

  /** What a cycle is run with. */
  datatype Setting = Setting(w: Seconds, threshold: int, now: nat, redisUp: bool)

  function Delete(s: Setting, l: Ledger, key: string): Ledger {
    var after := Act(s.w, l.unknown, key, Collect(s.now));
    l.(unknown := after, deleted := l.deleted + if key in l.unknown && key !in after then 1 else 0)
  }

  /** The upsert of the re-read counter. */
  function Transfer(l: Ledger, key: string, live: Counter, u: Upsert): Ledger {
    match Place(key)
    case None => l.(errors := l.errors + 1)
    case Some(location) =>
      l.(records := if u.Acked? || u.written then l.records[location := RecordOf(live)] else l.records,
         outcomes := l.outcomes + [u.Acked?],
         transferred := if u.Acked? then l.transferred + 1 else l.transferred,
         errors := if u.Acked? then l.errors else l.errors + 1)
  }

  predicate ShouldTransfer(s: Setting, c: Counter) {
    c.hits >= s.threshold && s.redisUp
  }

  function Served(w: Seconds, l: Ledger, arrivals: seq<Arrival>): Ledger {
    l.(unknown := Serve(w, l.unknown, arrivals))
  }

  /** The branch for a counter over the threshold, from its re-read on. */
  function TransferEntry(s: Setting, l: Ledger, key: string, i: Interlude): Ledger {
    var upserting := Served(s.w, l, i.beforeUpsert);
    if key !in l.unknown then Served(s.w, upserting, i.beforeDelete)
    else Delete(s, Served(s.w, Transfer(upserting, key, l.unknown[key], i.upsert), i.beforeDelete), key)
  }

  /** One entry of the snapshot. */
  function CleanEntry(s: Setting, l: Ledger, snap: Snapshot, i: Interlude): Ledger {
    var read := Served(s.w, l, i.beforeRead);
    if ShouldTransfer(s, snap.counter) then TransferEntry(s, read, snap.key, i)
    else Delete(s, Served(s.w, Served(s.w, read, i.beforeUpsert), i.beforeDelete), snap.key)
  }

  /** The loop over the snapshot; `env(n)` is what interleaves with entry `n`. */
  function Cycle(s: Setting, l: Ledger, snaps: seq<Snapshot>, env: nat -> Interlude): Ledger {
    if snaps == [] then l
    else
      var n := |snaps| - 1;
      CleanEntry(s, Cycle(s, l, snaps[..n], env), snaps[n], env(n))
  }

  lemma {:induction false} ServeConcat(w: Seconds, m: CounterMap, a: seq<Arrival>, b: seq<Arrival>)
    ensures Serve(w, m, a + b) == Serve(w, Serve(w, m, a), b)
  {
    if b == [] {
      assert a + b == a;
    } else {
      var n := |b| - 1;
      assert (a + b)[..|a + b| - 1] == a + b[..n];
      ServeConcat(w, m, a, b[..n]);
    }
  }

  /** Requests never remove a counter. */
  lemma {:induction false} ServeKeeps(w: Seconds, m: CounterMap, arrivals: seq<Arrival>)
    ensures m.Keys <= Serve(w, m, arrivals).Keys
  {
    if arrivals != [] {
      ServeKeeps(w, m, arrivals[..|arrivals| - 1]);
    }
  }

  /** The sweep: serve all traffic and collect, with no Redis at all. */
  function Sweep(s: Setting, m: CounterMap, snaps: seq<Snapshot>, env: nat -> Interlude): (CounterMap, nat) {
    if snaps == [] then (m, 0)
    else
      var n := |snaps| - 1;
      var (before, deleted) := Sweep(s, m, snaps[..n], env);
      var served := Serve(s.w, before, env(n).Traffic());
      var after := Act(s.w, served, snaps[n].key, Collect(s.now));
      (after, deleted + if snaps[n].key in served && snaps[n].key !in after then 1 else 0)
  }

  lemma EntryKeeps(s: Setting, l: Ledger, snap: Snapshot, i: Interlude, key: string)
    requires key in l.unknown && key != snap.key
    ensures key in CleanEntry(s, l, snap, i).unknown
  {
    ServeKeeps(s.w, l.unknown, i.beforeRead);
    ServeKeeps(s.w, Serve(s.w, l.unknown, i.beforeRead), i.beforeUpsert);
    ServeKeeps(s.w, Serve(s.w, Serve(s.w, l.unknown, i.beforeRead), i.beforeUpsert), i.beforeDelete);
  }

  /** A snapshotted counter is still there when the loop comes to it. */
  lemma {:induction false} StillThere(s: Setting, l: Ledger, snaps: seq<Snapshot>, env: nat -> Interlude, key: string)
    requires key in l.unknown && forall i :: 0 <= i < |snaps| ==> snaps[i].key != key
    ensures key in Cycle(s, l, snaps, env).unknown
  {
    if snaps != [] {
      var n := |snaps| - 1;
      StillThere(s, l, snaps[..n], env, key);
      EntryKeeps(s, Cycle(s, l, snaps[..n], env), snaps[n], env(n), key);
    }
  }

  lemma EntryIsSweep(s: Setting, l: Ledger, snap: Snapshot, i: Interlude)
    requires snap.key in l.unknown
    ensures var served := Serve(s.w, l.unknown, i.Traffic());
      && CleanEntry(s, l, snap, i).unknown == Act(s.w, served, snap.key, Collect(s.now))
      && CleanEntry(s, l, snap, i).deleted == Delete(s, l.(unknown := served), snap.key).deleted
  {
    ServeConcat(s.w, l.unknown, i.beforeRead, i.beforeUpsert);
    ServeConcat(s.w, l.unknown, i.beforeRead + i.beforeUpsert, i.beforeDelete);
    ServeKeeps(s.w, l.unknown, i.beforeRead);
  }

  predicate DistinctKeys(snaps: seq<Snapshot>) {
    forall i, j :: 0 <= i < j < |snaps| ==> snaps[i].key != snaps[j].key
  }

  lemma {:induction false} CycleIsSweep(s: Setting, l: Ledger, snaps: seq<Snapshot>, env: nat -> Interlude)
    requires DistinctKeys(snaps) && forall i :: 0 <= i < |snaps| ==> snaps[i].key in l.unknown
    ensures Cycle(s, l, snaps, env).unknown == Sweep(s, l.unknown, snaps, env).0
    ensures Cycle(s, l, snaps, env).deleted == l.deleted + Sweep(s, l.unknown, snaps, env).1
  {
    if snaps != [] {
      var n := |snaps| - 1;
      CycleIsSweep(s, l, snaps[..n], env);
      StillThere(s, l, snaps[..n], env, snaps[n].key);
      EntryIsSweep(s, Cycle(s, l, snaps[..n], env), snaps[n], env(n));
    }
  }

  lemma {:induction false} SweepByTraffic(
    s: Setting, t: Setting, m: CounterMap, snaps: seq<Snapshot>, e: nat -> Interlude, f: nat -> Interlude)
    requires s.w == t.w && s.now == t.now
    requires forall i: nat :: e(i).Traffic() == f(i).Traffic()
    ensures Sweep(s, m, snaps, e) == Sweep(t, m, snaps, f)
  {
    if snaps != [] {
      SweepByTraffic(s, t, m, snaps[..|snaps| - 1], e, f);
    }
  }

  /** Neither the health flag, nor the fate of any upsert, nor what Redis held before changes which counters
      stay in memory or how many are deleted. */
  lemma MemoryIgnoresRedis(
    s: Setting, t: Setting, l: Ledger, k: Ledger, snaps: seq<Snapshot>, e: nat -> Interlude, f: nat -> Interlude)
    requires s.w == t.w && s.now == t.now && l.unknown == k.unknown
    requires IsSnapshot(l.unknown, snaps)
    requires forall i: nat :: e(i).Traffic() == f(i).Traffic()
    ensures Cycle(s, l, snaps, e).unknown == Cycle(t, k, snaps, f).unknown
    ensures Cycle(s, l, snaps, e).deleted - l.deleted == Cycle(t, k, snaps, f).deleted - k.deleted
  {
    CycleIsSweep(s, l, snaps, e);
    CycleIsSweep(t, k, snaps, f);
    SweepByTraffic(s, t, l.unknown, snaps, e, f);
  }

  // ---- What Redis is told, and what is counted ----

  function CountOf(b: bool, outcomes: seq<bool>): nat {
    if outcomes == [] then 0
    else CountOf(b, outcomes[..|outcomes| - 1]) + if outcomes[|outcomes| - 1] == b then 1 else 0
  }

  lemma CountOfStep(b: bool, outcomes: seq<bool>, o: bool)
    ensures CountOf(b, outcomes + [o]) == CountOf(b, outcomes) + if o == b then 1 else 0
  {
    assert (outcomes + [o])[..|outcomes|] == outcomes;
  }

  /** The counter has been charged up to the threshold, and Redis was up when the cycle began. */
  predicate IsAbuser(threshold: int, redisUp: bool, snap: Snapshot) {
    redisUp && snap.counter.hits >= threshold
  }

  predicate InNamespace(key: string) {
    "key:" <= key || "ip:" <= key
  }

  /** The upserts of a cycle, true for those that Redis acknowledges: one for each abuser on the snapshot. */
  function Upserts(threshold: int, redisUp: bool, snaps: seq<Snapshot>, env: nat -> Interlude): seq<bool> {
    if snaps == [] then []
    else
      var n := |snaps| - 1;
      var before := Upserts(threshold, redisUp, snaps[..n], env);
      if IsAbuser(threshold, redisUp, snaps[n]) && InNamespace(snaps[n].key) then before + [env(n).upsert == Acked]
      else before
  }

  /** Abusers without a place in Redis. */
  function Misnamed(threshold: int, redisUp: bool, snaps: seq<Snapshot>): nat {
    if snaps == [] then 0
    else
      var n := |snaps| - 1;
      var misnamed := IsAbuser(threshold, redisUp, snaps[n]) && !InNamespace(snaps[n].key);
      Misnamed(threshold, redisUp, snaps[..n]) + if misnamed then 1 else 0
  }

  lemma {:induction false} NoneMisnamed(threshold: int, redisUp: bool, snaps: seq<Snapshot>)
    requires forall i :: 0 <= i < |snaps| ==> InNamespace(snaps[i].key)
    ensures Misnamed(threshold, redisUp, snaps) == 0
  {
    if snaps != [] {
      NoneMisnamed(threshold, redisUp, snaps[..|snaps| - 1]);
    }
  }

  lemma EntrySends(s: Setting, l: Ledger, snap: Snapshot, i: Interlude)
    requires snap.key in l.unknown
    ensures var r, abuser := CleanEntry(s, l, snap, i), IsAbuser(s.threshold, s.redisUp, snap);
      if abuser && InNamespace(snap.key) then
        && r.outcomes == l.outcomes + [i.upsert == Acked]
        && r.transferred == l.transferred + (if i.upsert.Acked? then 1 else 0)
        && r.errors == l.errors + (if i.upsert.Acked? then 0 else 1)
      else
        && r.outcomes == l.outcomes && r.transferred == l.transferred
        && r.errors == l.errors + if abuser then 1 else 0
  {
    hide Act, RecordOf;
    ServeKeeps(s.w, l.unknown, i.beforeRead);
    OriginOfPlace(snap.key);
  }

  /** Whatever requests interleave and whatever Redis answers, a cycle sends exactly the upserts of its snapshot,
      counts the acknowledged ones as transferred, and the failed ones, and abusers without a place, as errors. */
  lemma {:induction false} UpsertsAreCounted(s: Setting, l: Ledger, snaps: seq<Snapshot>, env: nat -> Interlude)
    requires DistinctKeys(snaps) && forall i :: 0 <= i < |snaps| ==> snaps[i].key in l.unknown
    ensures var r, sent := Cycle(s, l, snaps, env), Upserts(s.threshold, s.redisUp, snaps, env);
      && r.outcomes == l.outcomes + sent
      && r.transferred == l.transferred + CountOf(true, sent)
      && r.errors == l.errors + CountOf(false, sent) + Misnamed(s.threshold, s.redisUp, snaps)
  {
    if snaps == [] {
      assert l.outcomes + [] == l.outcomes;
    } else {
      hide CleanEntry, IsAbuser, InNamespace, CountOf;
      var n := |snaps| - 1;
      var before, sent := Cycle(s, l, snaps[..n], env), Upserts(s.threshold, s.redisUp, snaps[..n], env);
      var o := env(n).upsert == Acked;
      UpsertsAreCounted(s, l, snaps[..n], env);
      StillThere(s, l, snaps[..n], env, snaps[n].key);
      EntrySends(s, before, snaps[n], env(n));
      CountOfStep(true, sent, o);
      CountOfStep(false, sent, o);
      assert (l.outcomes + sent) + [o] == l.outcomes + (sent + [o]);
    }
  }

  // ---- A quiet cycle: no requests, and Redis acknowledges everything ----

  predicate Quiet(i: Interlude) {
    i.Traffic() == [] && i.upsert == Acked
  }

  function IdleKeys(s: Setting, m: CounterMap): set<string> {
    set k | k in m && IsInactive(m[k].slot, m[k].lastRequest, s.now, s.w)
  }

  function Abusers(s: Setting, m: CounterMap): set<string> {
    set k | k in m && m[k].hits >= s.threshold
  }

  ghost predicate AllNamespaced(m: CounterMap) {
    forall k :: k in m ==> Place(k).Some?
  }

  /** Location `l` holds the record of one of the counters `ks`. */
  predicate RecordedAt(ks: set<string>, l: Location) {
    Origin(l).Some? && Origin(l).value in ks
  }

  /** `after` is `before` with exactly the records of the counters `ks` of `m` written. */
  ghost predicate Written(m: CounterMap, ks: set<string>, before: Records, after: Records)
    requires ks <= m.Keys
  {
    && (forall l :: l in after <==> l in before || RecordedAt(ks, l))
    && forall l :: l in after ==> after[l] == if RecordedAt(ks, l) then RecordOf(m[Origin(l).value]) else before[l]
  }

  lemma WrittenStep(m: CounterMap, ks: set<string>, before: Records, after: Records, k: string)
    requires ks <= m.Keys && k in m && Place(k).Some?
    requires Written(m, ks, before, after)
    ensures Written(m, ks + {k}, before, after[Place(k).value := RecordOf(m[k])])
  {
    OriginOfPlace(k);
    forall l ensures RecordedAt(ks + {k}, l) <==> RecordedAt(ks, l) || l == Place(k).value {
      PlaceOfOrigin(l);
    }
  }

  lemma WrittenIsUnique(m: CounterMap, ks: set<string>, before: Records, a: Records, b: Records)
    requires ks <= m.Keys && Written(m, ks, before, a) && Written(m, ks, before, b)
    ensures a == b
  {
  }

  function KeysOf(snaps: seq<Snapshot>): set<string> {
    set i | 0 <= i < |snaps| :: snaps[i].key
  }

  lemma KeysOfStep(snaps: seq<Snapshot>)
    requires snaps != [] && DistinctKeys(snaps)
    ensures KeysOf(snaps) == KeysOf(snaps[..|snaps| - 1]) + {snaps[|snaps| - 1].key}
    ensures snaps[|snaps| - 1].key !in KeysOf(snaps[..|snaps| - 1])
  {
  }

  lemma SnapshotKeys(m: CounterMap, snaps: seq<Snapshot>)
    requires IsSnapshot(m, snaps)
    ensures KeysOf(snaps) == m.Keys
  {
  }

  /** What a quiet cycle has done to `l` when the keys `done` have been handled. */
  ghost predicate QuietAfter(s: Setting, l: Ledger, done: set<string>, r: Ledger) {
    && r.unknown == l.unknown - (IdleKeys(s, l.unknown) * done)
    && Written(l.unknown, Abusers(s, l.unknown) * done, l.records, r.records)
    && r.deleted == l.deleted + |IdleKeys(s, l.unknown) * done|
    && r.transferred == l.transferred + |Abusers(s, l.unknown) * done|
    && r.outcomes == l.outcomes + seq(|Abusers(s, l.unknown) * done|, _ => true)
    && r.errors == l.errors
  }

  lemma QuietEntry(s: Setting, l: Ledger, snap: Snapshot, i: Interlude)
    requires Quiet(i)
    requires snap.key in l.unknown
    ensures CleanEntry(s, l, snap, i) ==
      Delete(s, if ShouldTransfer(s, snap.counter) then Transfer(l, snap.key, l.unknown[snap.key], Acked) else l, snap.key)
  {
  }

  lemma SetStep(a: set<string>, done: set<string>, k: string)
    requires k !in done
    ensures a * (done + {k}) == if k in a then a * done + {k} else a * done
    ensures |a * (done + {k})| == |a * done| + if k in a then 1 else 0
  {
  }

  lemma QuietDelete(s: Setting, l: Ledger, done: set<string>, r: Ledger, k: string)
    requires k in l.unknown && k !in done
    requires r.unknown == l.unknown - (IdleKeys(s, l.unknown) * done)
    requires r.deleted == l.deleted + |IdleKeys(s, l.unknown) * done|
    ensures Delete(s, r, k).unknown == l.unknown - (IdleKeys(s, l.unknown) * (done + {k}))
    ensures Delete(s, r, k).deleted == l.deleted + |IdleKeys(s, l.unknown) * (done + {k})|
  {
    SetStep(IdleKeys(s, l.unknown), done, k);
    assert r.unknown[k] == l.unknown[k];
    if k in IdleKeys(s, l.unknown) {
      assert l.unknown - (IdleKeys(s, l.unknown) * (done + {k})) == r.unknown - {k};
    }
  }

  lemma QuietTransfer(s: Setting, l: Ledger, done: set<string>, r: Ledger, k: string)
    requires AllNamespaced(l.unknown) && QuietAfter(s, l, done, r)
    requires k in Abusers(s, l.unknown) && k !in done
    ensures var t, ks := Transfer(r, k, l.unknown[k], Acked), Abusers(s, l.unknown) * (done + {k});
      && Written(l.unknown, ks, l.records, t.records)
      && t.transferred == l.transferred + |ks|
      && t.outcomes == l.outcomes + seq(|ks|, _ => true)
      && t.unknown == r.unknown && t.deleted == r.deleted && t.errors == r.errors
  {
    SetStep(Abusers(s, l.unknown), done, k);
    WrittenStep(l.unknown, Abusers(s, l.unknown) * done, l.records, r.records, k);
    var n := |Abusers(s, l.unknown) * done|;
    assert seq(n, _ => true) + [true] == seq(n + 1, _ => true);
  }

  lemma QuietStep(s: Setting, l: Ledger, done: set<string>, r: Ledger, snap: Snapshot, i: Interlude)
    requires s.redisUp && AllNamespaced(l.unknown) && Quiet(i) && QuietAfter(s, l, done, r)
    requires snap.key in l.unknown && l.unknown[snap.key] == snap.counter && snap.key !in done
    ensures QuietAfter(s, l, done + {snap.key}, CleanEntry(s, r, snap, i))
  {
    var k := snap.key;
    assert k in r.unknown && r.unknown[k] == l.unknown[k];
    QuietEntry(s, r, snap, i);
    QuietDelete(s, l, done, r, k);
    if k in Abusers(s, l.unknown) {
      QuietTransfer(s, l, done, r, k);
      QuietDelete(s, l, done, Transfer(r, k, l.unknown[k], Acked), k);
    } else {
      SetStep(Abusers(s, l.unknown), done, k);
    }
  }

  lemma {:induction false} QuietCycle(s: Setting, l: Ledger, snaps: seq<Snapshot>, env: nat -> Interlude)
    requires s.redisUp && AllNamespaced(l.unknown) && forall i: nat :: Quiet(env(i))
    requires DistinctKeys(snaps)
    requires forall i :: 0 <= i < |snaps| ==> snaps[i].key in l.unknown && l.unknown[snaps[i].key] == snaps[i].counter
    ensures QuietAfter(s, l, KeysOf(snaps), Cycle(s, l, snaps, env))
  {
    if snaps == [] {
      assert IdleKeys(s, l.unknown) * {} == {} && Abusers(s, l.unknown) * {} == {};
    } else {
      var n := |snaps| - 1;
      QuietCycle(s, l, snaps[..n], env);
      KeysOfStep(snaps);
      QuietStep(s, l, KeysOf(snaps[..n]), Cycle(s, l, snaps[..n], env), snaps[n], env(n));
    }
  }

  /** A quiet cycle leaves exactly the active counters, writes exactly the records of the counters over the
      threshold, and reports those two cardinalities, in whatever order the snapshot lists the counters. */
  lemma QuietCycleIsExact(s: Setting, l: Ledger, snaps: seq<Snapshot>, env: nat -> Interlude)
    requires s.redisUp && AllNamespaced(l.unknown) && IsSnapshot(l.unknown, snaps)
    requires forall i: nat :: Quiet(env(i))
    ensures var r := Cycle(s, l, snaps, env);
      && r.unknown == l.unknown - IdleKeys(s, l.unknown)
      && Written(l.unknown, Abusers(s, l.unknown), l.records, r.records)
      && r.deleted == l.deleted + |IdleKeys(s, l.unknown)|
      && r.transferred == l.transferred + |Abusers(s, l.unknown)|
      && r.outcomes == l.outcomes + seq(|Abusers(s, l.unknown)|, _ => true)
      && r.errors == l.errors
  {
    hide Cycle, Written, KeysOf, Quiet;
    QuietCycle(s, l, snaps, env);
    SnapshotKeys(l.unknown, snaps);
    assert IdleKeys(s, l.unknown) * l.unknown.Keys == IdleKeys(s, l.unknown);
    assert Abusers(s, l.unknown) * l.unknown.Keys == Abusers(s, l.unknown);
  }

  /** The snapshot's order does not show in any part of the result. */
  lemma QuietCycleIgnoresOrder(s: Setting, l: Ledger, a: seq<Snapshot>, b: seq<Snapshot>, env: nat -> Interlude)
    requires s.redisUp && AllNamespaced(l.unknown) && IsSnapshot(l.unknown, a) && IsSnapshot(l.unknown, b)
    requires forall i: nat :: Quiet(env(i))
    ensures Cycle(s, l, a, env) == Cycle(s, l, b, env)
  {
    QuietCycleIsExact(s, l, a, env);
    QuietCycleIsExact(s, l, b, env);
    WrittenIsUnique(l.unknown, Abusers(s, l.unknown), l.records, Cycle(s, l, a, env).records, Cycle(s, l, b, env).records);
  }

  lemma SurvivorsAreActive(s: Setting, m: CounterMap)
    requires forall k :: k in m ==> Consistent(s.w, m[k])
    ensures IdleKeys(s, m - IdleKeys(s, m)) == {}
    ensures forall k :: k in m - IdleKeys(s, m) ==> s.now - m[k].lastRequest < 2 * WindowLength(s.w)
  {
  }

  /** A second quiet cycle at the same time deletes nothing, and every survivor was used within two windows. */
  lemma SecondCycleDeletesNothing(
    s: Setting, l: Ledger, first: seq<Snapshot>, second: seq<Snapshot>, e: nat -> Interlude, f: nat -> Interlude)
    requires s.redisUp && AllNamespaced(l.unknown) && IsSnapshot(l.unknown, first)
    requires forall i: nat :: Quiet(e(i)) && Quiet(f(i))
    requires forall k :: k in l.unknown ==> Consistent(s.w, l.unknown[k])
    requires IsSnapshot(Cycle(s, l, first, e).unknown, second)
    ensures var r := Cycle(s, l, first, e);
      && Cycle(s, r, second, f).unknown == r.unknown
      && Cycle(s, r, second, f).deleted == r.deleted
      && forall k :: k in r.unknown ==> s.now - r.unknown[k].lastRequest < 2 * WindowLength(s.w)
  {
    var r := Cycle(s, l, first, e);
    assert r.unknown == l.unknown - IdleKeys(s, l.unknown) by {
      QuietCycleIsExact(s, l, first, e);
    }
    SurvivorsAreActive(s, l.unknown);
    assert Cycle(s, r, second, f).unknown == r.unknown && Cycle(s, r, second, f).deleted == r.deleted by {
      QuietCycleIsExact(s, r, second, f);
      assert r.unknown - IdleKeys(s, r.unknown) == r.unknown;
    }
  }

  // ---- The cycle over known counters ----

  /** Around one entry of the known snapshot: requests first, then what Redis says about the limit. */
  datatype KnownInterlude = KnownInterlude(arrivals: seq<Arrival>, check: ExistsReply)

  datatype KnownLedger = KnownLedger(known: CounterMap, outcomes: seq<bool>, deleted: nat, errors: nat)

  function KnownEntry(w: Seconds, now: nat, l: KnownLedger, snap: Snapshot, i: KnownInterlude): KnownLedger {
    var served := Serve(w, l.known, i.arrivals);
    match i.check
    case ExistsUnreachable => KnownLedger(served, l.outcomes + [false], l.deleted, l.errors + 1)
    case Count(n) =>
      if n == 0 then
        KnownLedger(Act(w, served, snap.key, Drop), l.outcomes + [true], l.deleted + 1, l.errors)
      else
        var after := Act(w, served, snap.key, Collect(now));
        var gone := if snap.key in served && snap.key !in after then 1 else 0;
        KnownLedger(after, l.outcomes + [true], l.deleted + gone, l.errors)
  }

  function KnownCycle(w: Seconds, now: nat, l: KnownLedger, snaps: seq<Snapshot>, env: nat -> KnownInterlude)
    : KnownLedger
  {
    if snaps == [] then l
    else
      var n := |snaps| - 1;
      KnownEntry(w, now, KnownCycle(w, now, l, snaps[..n], env), snaps[n], env(n))
  }

  /** The existence checks of a cycle, true for those that Redis answers: one for each counter on the snapshot. */
  function Checks(n: nat, env: nat -> KnownInterlude): seq<bool> {
    if n == 0 then [] else Checks(n - 1, env) + [env(n - 1).check.Count?]
  }

  /** Whatever requests interleave, a known cycle checks each limit once and counts the unanswered checks as errors. */
  lemma {:induction false} ChecksAreCounted(
    w: Seconds, now: nat, l: KnownLedger, snaps: seq<Snapshot>, env: nat -> KnownInterlude)
    ensures var r, sent := KnownCycle(w, now, l, snaps, env), Checks(|snaps|, env);
      r.outcomes == l.outcomes + sent && r.errors == l.errors + CountOf(false, sent)
  {
    if snaps == [] {
      assert l.outcomes + [] == l.outcomes;
    } else {
      var n := |snaps| - 1;
      ChecksAreCounted(w, now, l, snaps[..n], env);
      CountOfStep(false, Checks(n, env), env(n).check.Count?);
      hide Act, Serve;
    }
  }

  /** The limit is gone, or it is there and the counter is idle; an unreachable Redis spares the counter. */
  predicate Doomed(w: Seconds, now: nat, snap: Snapshot, check: ExistsReply) {
    && check.Count?
    && (check.n == 0 || IsInactive(snap.counter.slot, snap.counter.lastRequest, now, w))
  }

  function DoomedKeys(w: Seconds, now: nat, snaps: seq<Snapshot>, env: nat -> KnownInterlude): set<string> {
    if snaps == [] then {}
    else
      var n := |snaps| - 1;
      DoomedKeys(w, now, snaps[..n], env) + if Doomed(w, now, snaps[n], env(n).check) then {snaps[n].key} else {}
  }

  lemma {:induction false} DoomedAreListed(
    w: Seconds, now: nat, snaps: seq<Snapshot>, env: nat -> KnownInterlude, k: string)
    requires k in DoomedKeys(w, now, snaps, env)
    ensures exists i :: 0 <= i < |snaps| && snaps[i].key == k
  {
    var n := |snaps| - 1;
    if k in DoomedKeys(w, now, snaps[..n], env) {
      DoomedAreListed(w, now, snaps[..n], env, k);
      var i :| 0 <= i < n && snaps[..n][i].key == k;
      assert snaps[i].key == k;
    } else {
      assert snaps[n].key == k;
    }
  }

  lemma QuietKnownStep(
    w: Seconds, now: nat, m: CounterMap, doomed: set<string>, l: KnownLedger, snap: Snapshot, i: KnownInterlude)
    requires i.arrivals == []
    requires snap.key in m && m[snap.key] == snap.counter && snap.key !in doomed
    requires l.known == m - doomed
    ensures var gone := if Doomed(w, now, snap, i.check) then {snap.key} else {};
      && KnownEntry(w, now, l, snap, i).known == m - (doomed + gone)
      && KnownEntry(w, now, l, snap, i).deleted == l.deleted + |gone|
  {
  }

  /** Without requests in between, exactly the doomed counters go, and they are counted once each. */
  lemma {:induction false} QuietKnownCycle(
    w: Seconds, now: nat, l: KnownLedger, snaps: seq<Snapshot>, env: nat -> KnownInterlude)
    requires DistinctKeys(snaps) && forall i: nat :: env(i).arrivals == []
    requires forall i :: 0 <= i < |snaps| ==> snaps[i].key in l.known && l.known[snaps[i].key] == snaps[i].counter
    ensures var r, doomed := KnownCycle(w, now, l, snaps, env), DoomedKeys(w, now, snaps, env);
      r.known == l.known - doomed && r.deleted == l.deleted + |doomed|
  {
    if snaps != [] {
      hide KnownEntry, Doomed;
      var n := |snaps| - 1;
      var doomed := DoomedKeys(w, now, snaps[..n], env);
      QuietKnownCycle(w, now, l, snaps[..n], env);
      if snaps[n].key in doomed {
        DoomedAreListed(w, now, snaps[..n], env, snaps[n].key);
      }
      QuietKnownStep(w, now, l.known, doomed, KnownCycle(w, now, l, snaps[..n], env), snaps[n], env(n));
    }
  }
}
