/** Building runs of the service step by step: one client, one API key without a limit of its own. */
module Scenarios {
  import opened Clock
  import opened Wrappers
  import opened Counters
  import opened CounterMaps
  import opened AbuseStore
  import opened Routing
  import opened Protocol
  import opened Sequences
  import opened Safety

  const CALL := Call("a", "", NoLimit)
  const KEY := UNKNOWN_KEY_PREFIX + "a"

  /** Some run in which no request waits longer than `lag` ends in `s`, with history `es` of the client's counter. */
  ghost predicate Reached(cfg: Config, lag: nat, s: State, es: seq<Event>) {
    exists acts :: RunsTo(cfg, lag, acts, s, es)
  }

  ghost predicate RunsTo(cfg: Config, lag: nat, acts: seq<Action>, s: State, es: seq<Event>) {
    && ValidRun(cfg, acts) && WithinLag(cfg, acts, lag)
    && Exec(cfg, acts) == s && Events(cfg, acts, UnknownSide, KEY) == es
  }

  lemma RunOf(cfg: Config, lag: nat, s: State, es: seq<Event>) returns (acts: seq<Action>)
    requires Reached(cfg, lag, s, es)
    ensures RunsTo(cfg, lag, acts, s, es)
  {
    acts :| RunsTo(cfg, lag, acts, s, es);
  }

  lemma Begin(cfg: Config, lag: nat)
    ensures Reached(cfg, lag, INITIAL, [])
  {
    assert RunsTo(cfg, lag, [], INITIAL, []);
  }

  function HistoryAfter(cfg: Config, s: State, a: Action, es: seq<Event>): seq<Event>
    requires Enabled(cfg, s, a)
  {
    var e := EventOf(cfg, s, a, UnknownSide);
    if e.Some? && e.value.key == KEY then es + [e.value.event] else es
  }

  lemma Go(cfg: Config, lag: nat, s: State, es: seq<Event>, a: Action)
    requires Reached(cfg, lag, s, es) && Enabled(cfg, s, a)
    requires a.ApplyRequest? ==> s.clock <= s.pending[a.thread].now + lag
    ensures Reached(cfg, lag, Step(cfg, s, a), HistoryAfter(cfg, s, a, es))
  {
    hide Step, Enabled, EventOf;
    var acts := RunOf(cfg, lag, s, es);
    assert Front(acts + [a]) == acts;
    assert RunsTo(cfg, lag, acts + [a], Step(cfg, s, a), HistoryAfter(cfg, s, a, es));
  }

  lemma Wait(cfg: Config, lag: nat, s: State, es: seq<Event>, dt: nat) returns (t: State)
    requires Reached(cfg, lag, s, es)
    ensures Reached(cfg, lag, t, es) && t == s.(clock := s.clock + dt)
  {
    hide Reached;
    Go(cfg, lag, s, es, Tick(dt));
    t := Step(cfg, s, Tick(dt));
  }

  /** A request of the client reads the clock. */
  lemma ReadTheClock(cfg: Config, lag: nat, s: State, es: seq<Event>) returns (t: State)
    requires Reached(cfg, lag, s, es) && s.pending == map[]
    ensures Reached(cfg, lag, t, es) && t == s.(pending := map[0 := Pending(CALL, s.clock)])
  {
    hide Reached;
    Go(cfg, lag, s, es, ReadClock(0, CALL));
    t := Step(cfg, s, ReadClock(0, CALL));
  }

  function ClientRequest(cfg: Config, now: nat): Request {
    Request(now, cfg.limits.Global())
  }

  lemma ApplyAsk(cfg: Config, s: State, now: nat)
    requires s.pending == map[0 := Pending(CALL, now)]
    ensures EventOf(cfg, s, ApplyRequest(0), UnknownSide) == Some(KeyEvent(KEY, Ask(ClientRequest(cfg, now))))
    ensures var t := Step(cfg, s, ApplyRequest(0));
      && t.unknown == s.unknown[KEY := Record(cfg.w, Find(s.unknown, KEY), ClientRequest(cfg, now))]
      && t == s.(unknown := t.unknown, tally := t.tally, pending := map[])
  {
    hide Record;
    assert RouteOfCall(cfg, CALL) == Shared(KEY, cfg.limits.Global());
    assert s.pending - {0} == map[];
  }

  /** It gets the lock. */
  lemma GetLock(cfg: Config, lag: nat, s: State, es: seq<Event>, now: nat) returns (t: State)
    requires Reached(cfg, lag, s, es) && s.pending == map[0 := Pending(CALL, now)] && s.clock <= now + lag
    ensures Reached(cfg, lag, t, es + [Ask(ClientRequest(cfg, now))])
    ensures t.(tally := s.tally) == s.(pending := map[],
      unknown := s.unknown[KEY := Record(cfg.w, Find(s.unknown, KEY), ClientRequest(cfg, now))])
  {
    hide Reached, Record;
    Go(cfg, lag, s, es, ApplyRequest(0));
    ApplyAsk(cfg, s, now);
    t := Step(cfg, s, ApplyRequest(0));
  }

  /** The client asks once, without waiting. */
  lemma AskOnce(cfg: Config, lag: nat, s: State, es: seq<Event>) returns (t: State)
    requires Reached(cfg, lag, s, es) && s.pending == map[]
    ensures Reached(cfg, lag, t, es + [Ask(ClientRequest(cfg, s.clock))])
    ensures t.(tally := s.tally) ==
      s.(unknown := s.unknown[KEY := Record(cfg.w, Find(s.unknown, KEY), ClientRequest(cfg, s.clock))])
  {
    hide Reached, Record;
    t := ReadTheClock(cfg, lag, s, es);
    t := GetLock(cfg, lag, t, es, s.clock);
  }

  /** One cleanup run goes as far as its snapshot of the unknown map. */
  lemma TakeSnapshot(cfg: Config, lag: nat, s: State, es: seq<Event>, cleaner: nat, redisUp: bool, c: Counter)
    returns (t: State)
    requires Reached(cfg, lag, s, es) && cleaner !in s.cleaners && s.known == map[] && s.unknown == map[KEY := c]
    ensures Reached(cfg, lag, t, es)
    ensures t == s.(cleaners := s.cleaners[cleaner := UnknownLoop(s.clock, redisUp, [Entry(KEY, c)])])
  {
    hide Reached;
    Go(cfg, lag, s, es, StartRun(cleaner));
    t := Step(cfg, s, StartRun(cleaner));
    Go(cfg, lag, t, es, SnapshotKnown(cleaner, []));
    t := Step(cfg, t, SnapshotKnown(cleaner, []));
    assert IsSnapshot(t.unknown, [Entry(KEY, c)]) by {
      assert [Entry(KEY, c)][0].key == KEY;
    }
    Go(cfg, lag, t, es, SnapshotUnknown(cleaner, redisUp, [Entry(KEY, c)]));
    t := Step(cfg, t, SnapshotUnknown(cleaner, redisUp, [Entry(KEY, c)]));
  }

  /** A run re-reads its entry and writes what it finds. */
  lemma WriteRecord(cfg: Config, lag: nat, s: State, es: seq<Event>, cleaner: nat, snap: Counter, live: Counter)
    returns (t: State)
    requires Reached(cfg, lag, s, es) && cleaner in s.cleaners && s.unknown == map[KEY := live]
    requires snap.hits >= cfg.threshold
    requires s.cleaners[cleaner] == UnknownLoop(s.clock, true, [Entry(KEY, snap)])
    ensures Reached(cfg, lag, t, es)
    ensures t == s.(records := s.records[Place(KEY).value := RecordOf(live)],
                    cleaners := s.cleaners[cleaner :=
                      Upserted(s.clock, true, [Entry(KEY, snap)], Some(RecordOf(live)))])
  {
    hide Reached;
    KeyRoundTrip("a");
    Go(cfg, lag, s, es, ReRead(cleaner));
    t := Step(cfg, s, ReRead(cleaner));
    Go(cfg, lag, t, es, SendUpsert(cleaner, Acked));
    t := Step(cfg, t, SendUpsert(cleaner, Acked));
  }

  // ---- Abusers ----

  /** Nothing has happened to the service but the requests of the client, the last one just now: `hits` of its
      slots have been charged, and the open one has `n` requests. */
  ghost predicate Counting(cfg: Config, lag: nat, s: State, es: seq<Event>, hits: nat, n: nat) {
    && Reached(cfg, lag, s, es)
    && s == INITIAL.(clock := s.clock, unknown := s.unknown, tally := s.tally)
    && s.unknown.Keys == {KEY}
    && var c := s.unknown[KEY];
      c.hits == hits && c.windowCount == n && c.slot == SlotOf(s.clock, cfg.w) && c.lastRequest == s.clock
  }

  lemma CountOne(cfg: Config, lag: nat, s: State, es: seq<Event>, hits: nat, n: nat) returns (t: State)
    requires Counting(cfg, lag, s, es, hits, n)
    ensures Counting(cfg, lag, t, es + [Ask(ClientRequest(cfg, s.clock))], hits, n + 1)
  {
    hide Reached;
    t := AskOnce(cfg, lag, s, es);
  }

  lemma {:induction false} FillSlot(cfg: Config, lag: nat, s: State, es: seq<Event>, hits: nat, n: nat, more: nat)
    returns (t: State, fs: seq<Event>)
    requires Counting(cfg, lag, s, es, hits, n)
    ensures Counting(cfg, lag, t, fs, hits, n + more)
  {
    t, fs := s, es;
    if more > 0 {
      t, fs := FillSlot(cfg, lag, s, es, hits, n, more - 1);
      var clock := t.clock;
      t := CountOne(cfg, lag, t, fs, hits, n + more - 1);
      fs := fs + [Ask(ClientRequest(cfg, clock))];
    }
  }

  /** A window later the first request charges the slot that is over the line. */
  lemma ChargeSlot(cfg: Config, lag: nat, s: State, es: seq<Event>, hits: nat, n: nat)
    returns (t: State, fs: seq<Event>)
    requires Counting(cfg, lag, s, es, hits, n) && n > cfg.Line()
    ensures Counting(cfg, lag, t, fs, hits + 1, 1)
  {
    hide Reached;
    var u := Wait(cfg, lag, s, es, WindowLength(cfg.w));
    LaterSlot(s.clock, u.clock, 1, cfg.w);
    t := AskOnce(cfg, lag, u, es);
    fs := es + [Ask(ClientRequest(cfg, u.clock))];
  }

  /** An abuser with as many charges as one likes. */
  lemma {:induction false} MakeAbuser(cfg: Config, lag: nat, hits: nat) returns (s: State, es: seq<Event>)
    requires cfg.Sound()
    ensures Counting(cfg, lag, s, es, hits, cfg.Line() + 1)
  {
    if hits == 0 {
      Begin(cfg, lag);
      s := AskOnce(cfg, lag, INITIAL, []);
      es := [Ask(ClientRequest(cfg, 0))];
      assert [] + es == es;
      assert Counting(cfg, lag, s, es, 0, 1);
    } else {
      s, es := MakeAbuser(cfg, lag, hits - 1);
      s, es := ChargeSlot(cfg, lag, s, es, hits - 1, cfg.Line() + 1);
    }
    s, es := FillSlot(cfg, lag, s, es, hits, 1, cfg.Line());
  }
}
