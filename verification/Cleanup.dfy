/** The cleanup worker. Requests that take the lock between its critical sections are played by `Interfere`;
    everything the worker cannot know in advance (those requests, and the replies of Redis) is the script `env`. */
module Cleanup {
  import opened Clock
  import opened Counters
  import opened CounterMaps
  import opened AbuseStore
  import opened Routing
  import opened Cycles

  /** Requests to the unknown map are always recorded under the global policy. */
  predicate AreGlobal(limits: Limits, arrivals: seq<Arrival>) {
    forall i :: 0 <= i < |arrivals| ==> arrivals[i].request.policy == limits.Global()
  }

  predicate GlobalTraffic(limits: Limits, i: Interlude) {
    AreGlobal(limits, i.beforeRead) && AreGlobal(limits, i.beforeUpsert) && AreGlobal(limits, i.beforeDelete)
  }

  /** Requests to the known map carry their own limit and the configured burst. */
  predicate AreIndividual(limits: Limits, arrivals: seq<Arrival>) {
    forall i :: 0 <= i < |arrivals| ==>
      arrivals[i].request.policy == KnownPolicy(arrivals[i].request.policy.limit, limits.burst)
  }

  class Cleaner {
    const known: KnownMap
    const unknown: UnknownMap
    const store: Store
    const metrics: Metrics
    const limits: Limits
    const transferThreshold: int

    constructor (known: KnownMap, unknown: UnknownMap, store: Store, metrics: Metrics, limits: Limits, threshold: int)
      ensures this.known == known && this.unknown == unknown && this.store == store && this.metrics == metrics
      ensures this.limits == limits && this.transferThreshold == threshold
    {
      this.known, this.unknown, this.store, this.metrics := known, unknown, store, metrics;
      this.limits, this.transferThreshold := limits, threshold;
    }

    /** Everything that a cycle over the unknown map changes. */
    ghost function State(deleted: nat, transferred: nat): Ledger
      reads unknown, store, metrics
    {
      Ledger(unknown.contents, store.records, store.outcomes, deleted, transferred, metrics.redisErrorsTotal)
    }

    ghost function KnownState(deleted: nat): KnownLedger
      reads known, store, metrics
    {
      KnownLedger(known.contents, store.outcomes, deleted, metrics.redisErrorsTotal)
    }

    method Interfere(arrivals: seq<Arrival>)
      requires unknown.Valid() && AreGlobal(limits, arrivals)
      modifies unknown, unknown.repr
      ensures unknown.Valid() && fresh(unknown.repr - old(unknown.repr))
      ensures unknown.contents == Serve(unknown.windowS, old(unknown.contents), arrivals)
    {
      for n := 0 to |arrivals|
        invariant unknown.Valid() && fresh(unknown.repr - old(unknown.repr))
        invariant unknown.contents == Serve(unknown.windowS, old(unknown.contents), arrivals[..n])
      {
        var a := arrivals[n];
        assert arrivals[..n + 1][..n] == arrivals[..n];
        var _ := unknown.RecordRequest(
          a.request.now, a.key, limits.globalLimit, limits.burst, limits.abuseMultiplier);
      }
      assert arrivals[..|arrivals|] == arrivals;
    }

    method InterfereKnown(arrivals: seq<Arrival>)
      requires known.Valid() && AreIndividual(limits, arrivals)
      modifies known, known.repr
      ensures known.Valid() && fresh(known.repr - old(known.repr))
      ensures known.contents == Serve(known.windowS, old(known.contents), arrivals)
    {
      for n := 0 to |arrivals|
        invariant known.Valid() && fresh(known.repr - old(known.repr))
        invariant known.contents == Serve(known.windowS, old(known.contents), arrivals[..n])
      {
        var a := arrivals[n];
        assert arrivals[..n + 1][..n] == arrivals[..n];
        var _ := known.RecordRequest(a.request.now, a.key, a.request.policy.limit, limits.burst);
      }
      assert arrivals[..|arrivals|] == arrivals;
    }

    /** Builds the record of the re-read counter and writes it to the database of its namespace. */
    method Transfer(key: string, live: Counter, u: Upsert, ghost deleted: nat, transferred: nat)
      returns (transferred': nat)
      requires store.Valid()
      modifies store, metrics`redisErrorsTotal
      ensures store.Valid()
      ensures State(deleted, transferred') == Cycles.Transfer(old(State(deleted, transferred)), key, live, u)
      ensures transferred' == transferred + if InNamespace(key) && u.Acked? then 1 else 0
      ensures metrics.redisErrorsTotal
        == old(metrics.redisErrorsTotal) + if InNamespace(key) && u.Acked? then 0 else 1
      ensures var written := u.Acked? || u.written;
        var rec := AbuseRecord(
          live.firstRequest / 1_000_000_000, live.lastRequest / 1_000_000_000, live.total, live.burstHits, live.hits);
        store.records ==
          if written && "key:" <= key then old(store.records)[Location(2, "rate:abuse:key:" + key[4..]) := rec]
          else if written && "ip:" <= key then old(store.records)[Location(3, "rate:abuse:ip:" + key[3..]) := rec]
          else old(store.records)
    {
      var rec := AbuseRecord(Unix(live.firstRequest), Unix(live.lastRequest), live.total, live.burstHits, live.hits);
      var failed := true;
      if HasPrefix(key, UNKNOWN_KEY_PREFIX) {
        var apiKey := TrimPrefix(key, UNKNOWN_KEY_PREFIX);
        failed := store.UpsertAbuse(Location(DB_ABUSE_KEY, ABUSE_KEY_SPACE + apiKey), rec, u);
      } else if HasPrefix(key, UNKNOWN_IP_PREFIX) {
        var ip := TrimPrefix(key, UNKNOWN_IP_PREFIX);
        failed := store.UpsertAbuse(Location(DB_ABUSE_IP, ABUSE_IP_SPACE + ip), rec, u);
      }
      if failed {
        metrics.redisErrorsTotal := metrics.redisErrorsTotal + 1;
        return transferred;
      }
      return transferred + 1;
    }

    /** The conditional delete, counted. */
    method DropIdle(now: nat, ghost redisUp: bool, key: string, deleted: nat, ghost transferred: nat)
      returns (deleted': nat)
      requires unknown.Valid()
      modifies unknown
      ensures unknown.Valid() && unknown.repr == old(unknown.repr)
      ensures var s := Setting(unknown.windowS, transferThreshold, now, redisUp);
        State(deleted', transferred) == Delete(s, old(State(deleted, transferred)), key)
    {
      var gone := unknown.DeleteIfInactive(key, now);
      return if gone then deleted + 1 else deleted;
    }

    /** One turn of the loop over the unknown snapshot. */
    method CleanUnknown(now: nat, redisUp: bool, snap: Snapshot, i: Interlude, deleted: nat, transferred: nat)
      returns (deleted': nat, transferred': nat)
      requires unknown.Valid() && store.Valid() && GlobalTraffic(limits, i)
      modifies unknown, unknown.repr, store, metrics`redisErrorsTotal
      ensures unknown.Valid() && store.Valid() && fresh(unknown.repr - old(unknown.repr))
      ensures var s := Setting(unknown.windowS, transferThreshold, now, redisUp);
        State(deleted', transferred') == CleanEntry(s, old(State(deleted, transferred)), snap, i)
    {
      hide Delete, Serve, TransferEntry;
      Interfere(i.beforeRead);
      if snap.counter.hits >= transferThreshold && redisUp {
        deleted', transferred' := TransferUnknown(now, redisUp, snap.key, i, deleted, transferred);
      } else {
        Interfere(i.beforeUpsert);
        Interfere(i.beforeDelete);
        transferred' := transferred;
        deleted' := DropIdle(now, redisUp, snap.key, deleted, transferred);
      }
    }

    /** The branch for a counter over the threshold: re-read, upsert, conditional delete. */
    method TransferUnknown(now: nat, ghost redisUp: bool, key: string, i: Interlude, deleted: nat, transferred: nat)
      returns (deleted': nat, transferred': nat)
      requires unknown.Valid() && store.Valid() && GlobalTraffic(limits, i)
      modifies unknown, unknown.repr, store, metrics`redisErrorsTotal
      ensures unknown.Valid() && store.Valid() && fresh(unknown.repr - old(unknown.repr))
      ensures var s := Setting(unknown.windowS, transferThreshold, now, redisUp);
        State(deleted', transferred') == TransferEntry(s, old(State(deleted, transferred)), key, i)
    {
      hide Delete, Serve, Cycles.Transfer;
      deleted', transferred' := deleted, transferred;
      var live := unknown.Get(key);
      Interfere(i.beforeUpsert);
      if live.None? {
        Interfere(i.beforeDelete);
        return;
      }
      transferred' := Transfer(key, live.value, i.upsert, deleted, transferred);
      Interfere(i.beforeDelete);
      deleted' := DropIdle(now, redisUp, key, deleted, transferred');
    }

    /** The cycle over the unknown map, for any traffic and any replies. */
    method RunUnknown(now: nat, env: nat -> Interlude) returns (deleted: nat, transferred: nat, snaps: seq<Snapshot>)
      requires unknown.Valid() && store.Valid() && forall i: nat :: GlobalTraffic(limits, env(i))
      modifies unknown, unknown.repr, store, metrics`redisErrorsTotal
      ensures unknown.Valid() && store.Valid() && fresh(unknown.repr - old(unknown.repr))
      ensures IsSnapshot(old(unknown.contents), snaps)
      ensures var s := Setting(unknown.windowS, transferThreshold, now, old(store.healthy));
        State(deleted, transferred) == Cycle(s, old(State(0, 0)), snaps, env)
      ensures var sent := Upserts(transferThreshold, old(store.healthy), snaps, env);
        && store.outcomes == old(store.outcomes) + sent
        && transferred == CountOf(true, sent)
        && metrics.redisErrorsTotal == old(metrics.redisErrorsTotal)
          + CountOf(false, sent) + Misnamed(transferThreshold, old(store.healthy), snaps)
        && ((forall k :: k in old(unknown.contents) ==> InNamespace(k)) ==>
          metrics.redisErrorsTotal == old(metrics.redisErrorsTotal) + CountOf(false, sent))
    {
      hide CleanEntry;
      var redisUp := store.healthy;
      deleted, transferred := 0, 0;
      snaps := unknown.Snapshot();
      ghost var s := Setting(unknown.windowS, transferThreshold, now, redisUp);
      for n := 0 to |snaps|
        invariant unknown.Valid() && store.Valid() && fresh(unknown.repr - old(unknown.repr))
        invariant State(deleted, transferred) == Cycle(s, old(State(0, 0)), snaps[..n], env)
      {
        assert snaps[..n + 1][..n] == snaps[..n];
        deleted, transferred := CleanUnknown(now, redisUp, snaps[n], env(n), deleted, transferred);
      }
      assert snaps[..|snaps|] == snaps;
      UpsertsAreCounted(s, old(State(0, 0)), snaps, env);
      if forall k :: k in old(unknown.contents) ==> InNamespace(k) {
        NoneMisnamed(transferThreshold, redisUp, snaps);
      }
    }

    /** The cycle over the known map, for any traffic and any replies. */
    method RunKnown(now: nat, env: nat -> KnownInterlude) returns (deleted: nat, snaps: seq<Snapshot>)
      requires known.Valid() && store.Valid() && forall i: nat :: AreIndividual(limits, env(i).arrivals)
      modifies known, known.repr, store`healthy, store`log, store`outcomes, metrics`redisErrorsTotal
      ensures known.Valid() && store.Valid() && fresh(known.repr - old(known.repr))
      ensures IsSnapshot(old(known.contents), snaps)
      ensures KnownState(deleted) == KnownCycle(known.windowS, now, old(KnownState(0)), snaps, env)
      ensures store.outcomes == old(store.outcomes) + Checks(|snaps|, env)
      ensures metrics.redisErrorsTotal == old(metrics.redisErrorsTotal) + CountOf(false, Checks(|snaps|, env))
    {
      hide KnownEntry;
      deleted := 0;
      snaps := known.Snapshot();
      for n := 0 to |snaps|
        invariant known.Valid() && store.Valid() && fresh(known.repr - old(known.repr))
        invariant KnownState(deleted) == KnownCycle(known.windowS, now, old(KnownState(0)), snaps[..n], env)
      {
        assert snaps[..n + 1][..n] == snaps[..n];
        deleted := CleanKnown(now, snaps[n], env(n), deleted);
      }
      assert snaps[..|snaps|] == snaps;
      ChecksAreCounted(known.windowS, now, old(KnownState(0)), snaps, env);
    }

    /** One turn of the loop over the known snapshot. */
    method CleanKnown(now: nat, snap: Snapshot, i: KnownInterlude, deleted: nat) returns (deleted': nat)
      requires known.Valid() && store.Valid() && AreIndividual(limits, i.arrivals)
      modifies known, known.repr, store`healthy, store`log, store`outcomes, metrics`redisErrorsTotal
      ensures known.Valid() && store.Valid() && fresh(known.repr - old(known.repr))
      ensures KnownState(deleted') == KnownEntry(known.windowS, now, old(KnownState(deleted)), snap, i)
    {
      hide Act, Serve;
      deleted' := deleted;
      InterfereKnown(i.arrivals);
      var present, failed := store.LimitExists(i.check);
      if failed {
        metrics.redisErrorsTotal := metrics.redisErrorsTotal + 1;
      } else if !present {
        known.Delete(snap.key);
        deleted' := deleted + 1;
      } else {
        var gone := known.DeleteIfInactive(snap.key, now);
        if gone {
          deleted' := deleted + 1;
        }
      }
    }
  }
}
