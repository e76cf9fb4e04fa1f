/** How long a request may wait for its lock: the two margins of the service, as equivalences over all its runs. */
module Margins {
  import opened Clock
  import opened Counters
  import opened CounterMaps
  import opened Protocol
  import opened Sequences
  import opened Safety
  import opened Transfers
  import opened Scenarios
  import Collection

  // ---- One window for decisions ----

  /** The request of `thread` can get its lock now, with no more than `lag` of waiting, like all before it. */
  ghost predicate Decides(cfg: Config, lag: nat, acts: seq<Action>, thread: nat, side: Side) {
    && ValidRun(cfg, acts) && WithinLag(cfg, acts, lag)
    && var s := Exec(cfg, acts);
      && Enabled(cfg, s, ApplyRequest(thread)) && s.clock <= s.pending[thread].now + lag
      && EventOf(cfg, s, ApplyRequest(thread), side).Some?
  }

  /** No run that keeps to the lag takes a decision that a map without collection would not take. */
  ghost predicate CollectionIsFree(cfg: Config, lag: nat) {
    forall acts, thread, side :: Decides(cfg, lag, acts, thread, side) ==> IsCollectionFree(cfg, acts, thread, side)
  }

  lemma {:induction false} VolleyOfRequests(cfg: Config, lag: nat, n: nat) returns (s: State)
    ensures var r := ClientRequest(cfg, WindowLength(cfg.w));
      Reached(cfg, lag, s, Collection.Volley(n, r))
    ensures s == INITIAL.(clock := WindowLength(cfg.w), unknown := s.unknown, tally := s.tally)
    ensures s.unknown.Keys == if n == 0 then {} else {KEY}
  {
    hide Reached;
    var r := ClientRequest(cfg, WindowLength(cfg.w));
    if n == 0 {
      Begin(cfg, lag);
      assert Collection.Volley(0, r) == [];
      s := Wait(cfg, lag, INITIAL, [], WindowLength(cfg.w));
    } else {
      s := VolleyOfRequests(cfg, lag, n - 1);
      assert Collection.Volley(n, r) == Collection.Volley(n - 1, r) + [Ask(r)];
      s := AskOnce(cfg, lag, s, Collection.Volley(n - 1, r));
    }
  }

  lemma ReachedIsReplay(cfg: Config, lag: nat, s: State, es: seq<Event>)
    requires Reached(cfg, lag, s, es)
    ensures Find(s.unknown, KEY) == Replay(cfg.w, es)
  {
    var acts := RunOf(cfg, lag, s, es);
    CounterIsReplay(cfg, acts, UnknownSide, KEY);
  }

  /** The counter of `n` requests is collected while a request of their slot waits, a little over a window. */
  lemma CollectWhileWaiting(cfg: Config, lag: nat, n: nat) returns (s: State)
    requires 0 < n
    ensures var len := WindowLength(cfg.w);
      && Reached(cfg, lag, s, Collection.Volley(n, ClientRequest(cfg, len)) + [Collect(3 * len)])
      && s.pending == map[0 := Pending(CALL, 2 * len - 1)] && s.clock == 3 * len
  {
    hide Reached;
    var len := WindowLength(cfg.w);
    var es := Collection.Volley(n, ClientRequest(cfg, len));
    s := VolleyOfRequests(cfg, lag, n);
    ReachedIsReplay(cfg, lag, s, es);
    Collection.VolleyFills(cfg.w, n, ClientRequest(cfg, len));
    var c := s.unknown[KEY];
    assert s.unknown == map[KEY := c];
    s := Wait(cfg, lag, s, es, len - 1);
    s := ReadTheClock(cfg, lag, s, es);
    s := Wait(cfg, lag, s, es, len + 1);
    s := TakeSnapshot(cfg, lag, s, es, 1, false, c);
    Go(cfg, lag, s, es, Conclude(1));
    s := Step(cfg, s, Conclude(1));
  }

  /** Lag over one window: a run that judges a request as the first of its slot which is the one after `n`. */
  lemma LateDecision(cfg: Config, lag: nat, n: nat) returns (acts: seq<Action>)
    requires 0 < n && WindowLength(cfg.w) < lag
    ensures Decides(cfg, lag, acts, 0, UnknownSide)
    ensures var s := Exec(cfg, acts);
      var e := EventOf(cfg, s, ApplyRequest(0), UnknownSide).value;
      && Verdict(cfg.w, Find(s.unknown, e.key), e.event.request) == Judge(1, cfg.limits.Global())
      && Verdict(cfg.w, Replay(cfg.w, Collection.Uncollected(Events(cfg, acts, UnknownSide, e.key))), e.event.request)
        == Judge(n + 1, cfg.limits.Global())
  {
    var len := WindowLength(cfg.w);
    var s := CollectWhileWaiting(cfg, lag, n);
    var es := Collection.Volley(n, ClientRequest(cfg, len)) + [Collect(3 * len)];
    ReachedIsReplay(cfg, lag, s, es);
    acts := RunOf(cfg, lag, s, es);
    ApplyAsk(cfg, s, 2 * len - 1);
    SlotIs(len, cfg.w, 1);
    SlotIs(2 * len - 1, cfg.w, 1);
    SlotIs(3 * len, cfg.w, 3);
    Collection.RefilledSlot(cfg.w, cfg.limits.Global(), n, len, 3 * len, 2 * len - 1);
    hide Verdict, Replay, Collection.Uncollected, Collection.Volley, Step;
  }

  /** Collection is free of effect on decisions, in all runs that keep to a lag, just up to one window. */
  lemma CollectionIsFreeIff(cfg: Config, lag: nat)
    ensures CollectionIsFree(cfg, lag) <==> lag <= WindowLength(cfg.w)
  {
    if lag <= WindowLength(cfg.w) {
      forall acts, thread, side | Decides(cfg, lag, acts, thread, side)
        ensures IsCollectionFree(cfg, acts, thread, side)
      {
        LagGrows(cfg, acts, lag, WindowLength(cfg.w));
        var key := EventOf(cfg, Exec(cfg, acts), ApplyRequest(thread), side).value.key;
        LagOfKey(cfg, acts, side, key, WindowLength(cfg.w));
        LagKeepsDecisions(cfg, acts, thread, side);
      }
    } else {
      var acts := LateDecision(cfg, lag, 1);
      assert !IsCollectionFree(cfg, acts, 0, UnknownSide);
    }
  }

  lemma {:induction false} LagGrows(cfg: Config, acts: seq<Action>, lag: nat, more: nat)
    requires ValidRun(cfg, acts) && WithinLag(cfg, acts, lag) && lag <= more
    ensures WithinLag(cfg, acts, more)
  {
    if acts != [] {
      LagGrows(cfg, Front(acts), lag, more);
    }
  }

  // ---- Two windows for records ----

  /** In no run that keeps to the lag does an update get lost between an acknowledged upsert and the delete. */
  ghost predicate KeepsUpdates(cfg: Config, lag: nat) {
    forall acts, cleaner ::
      ValidRun(cfg, acts) && WithinLag(cfg, acts, lag) && DeletesRecorded(cfg, Exec(cfg, acts), cleaner) ==>
        RecordIsFinal(Exec(cfg, acts), cleaner)
  }

  /** Lag of two windows: a request read before both slips in between the upsert and the delete. */
  lemma LateUpdate(cfg: Config, lag: nat) returns (acts: seq<Action>)
    requires cfg.Sound() && 2 * WindowLength(cfg.w) <= lag
    ensures ValidRun(cfg, acts) && WithinLag(cfg, acts, lag)
    ensures DeletesRecorded(cfg, Exec(cfg, acts), 1) && !RecordIsFinal(Exec(cfg, acts), 1)
  {
    hide Reached;
    var s, es := MakeAbuser(cfg, lag, cfg.threshold);
    var c, now := s.unknown[KEY], s.clock;
    assert s.unknown == map[KEY := c];
    s := ReadTheClock(cfg, lag, s, es);
    s := Wait(cfg, lag, s, es, 2 * WindowLength(cfg.w));
    LaterSlot(now, s.clock, 2, cfg.w);
    s := TakeSnapshot(cfg, lag, s, es, 1, true, c);
    s := WriteRecord(cfg, lag, s, es, 1, c, c);
    s := GetLock(cfg, lag, s, es, now);
    es := es + [Ask(ClientRequest(cfg, now))];
    assert s.unknown[KEY].total == c.total + 1;
    acts := RunOf(cfg, lag, s, es);
  }

  /** Updates are kept, in all runs that keep to a lag, just under two windows. */
  lemma KeepsUpdatesIff(cfg: Config, lag: nat)
    requires cfg.Sound()
    ensures KeepsUpdates(cfg, lag) <==> lag < 2 * WindowLength(cfg.w)
  {
    if lag < 2 * WindowLength(cfg.w) {
      forall acts, cleaner
        | ValidRun(cfg, acts) && WithinLag(cfg, acts, lag) && DeletesRecorded(cfg, Exec(cfg, acts), cleaner)
        ensures RecordIsFinal(Exec(cfg, acts), cleaner)
      {
        var key := PhaseOf(Exec(cfg, acts), cleaner).todo[0].key;
        LagOfKey(cfg, acts, UnknownSide, key, lag);
        LagMakesFresh(cfg, acts, lag, cleaner, key);
        NoUpdateIsLost(cfg, acts, cleaner);
      }
    } else {
      var acts := LateUpdate(cfg, lag);
      assert DeletesRecorded(cfg, Exec(cfg, acts), 1);
    }
  }
}
