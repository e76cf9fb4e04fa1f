/** What a finished loop over the unknown map leaves behind, with requests and other runs at work beside it. */
module Leftovers {
  import opened Clock
  import opened Counters
  import opened CounterMaps
  import opened Protocol
  import opened Sequences
  import opened Safety

  /** From `pre` to the end of `acts`, `cleaner` is inside its loop. Other runs may do what they like. */
  predicate StaysInLoop(acts: seq<Action>, pre: nat, cleaner: nat) {
    forall i :: pre <= i < |acts| && acts[i].ByCleaner() && acts[i].cleaner == cleaner ==>
      acts[i].ReRead? || acts[i].SendUpsert? || acts[i].Conclude?
  }

  /** Since `pre`, a request of `key` has been applied that read the clock two windows or more before `start`. */
  predicate AskedLate(cfg: Config, acts: seq<Action>, pre: nat, key: string, start: nat)
    requires ValidRun(cfg, acts)
  {
    && |acts| > pre
    && (AskedLate(cfg, Front(acts), pre, key, start) || IsLate(cfg, Exec(cfg, Front(acts)), Last(acts), key, start))
  }

  predicate IsLate(cfg: Config, s: State, a: Action, key: string, start: nat)
    requires Enabled(cfg, s, a)
  {
    var e := EventOf(cfg, s, a, UnknownSide);
    a.ApplyRequest? && e.Some? && e.value.key == key && e.value.event.request.now + 2 * WindowLength(cfg.w) <= start
  }

  predicate Listed(todo: seq<Snapshot>, key: string) {
    exists i :: 0 <= i < |todo| && todo[i].key == key
  }

  predicate IsActive(w: Seconds, c: Counter, start: nat) {
    start < c.lastRequest + 2 * WindowLength(w)
  }

  /** The loop has still to visit the counter of `key`, or the counter is active, or a late request has touched it. */
  predicate Swept(cfg: Config, acts: seq<Action>, pre: nat, p: Phase, key: string)
    requires ValidRun(cfg, acts) && p.OnUnknown()
  {
    key in Exec(cfg, acts).unknown ==>
      || Listed(p.todo, key)
      || IsActive(cfg.w, Exec(cfg, acts).unknown[key], p.start)
      || AskedLate(cfg, acts, pre, key, p.start)
  }

  lemma ListedTail(todo: seq<Snapshot>, key: string)
    requires todo != [] && Listed(todo, key) && todo[0].key != key
    ensures Listed(todo[1..], key)
  {
    var i :| 0 <= i < |todo| && todo[i].key == key;
    assert todo[1..][i - 1].key == key;
  }

  lemma StepOnKey(cfg: Config, s: State, a: Action, key: string)
    requires Enabled(cfg, s, a)
    ensures var e := EventOf(cfg, s, a, UnknownSide);
      Find(Step(cfg, s, a).unknown, key) ==
        if e.Some? && e.value.key == key then Apply(cfg.w, Find(s.unknown, key), e.value.event) else Find(s.unknown, key)
  {
    StepOnMap(cfg, s, a, UnknownSide);
    EffectOnKey(cfg.w, s.unknown, EventOf(cfg, s, a, UnknownSide), key);
  }

  /** What an action does to the counter of one key that the loop is through with, or has still to visit. */
  lemma KeyStaysSwept(cfg: Config, s: State, a: Action, cleaner: nat, key: string)
    requires Enabled(cfg, s, a) && PhaseOf(s, cleaner).OnUnknown()
    requires a.ByCleaner() && a.cleaner == cleaner ==> a.ReRead? || a.SendUpsert? || a.Conclude?
    requires PhaseOf(s, cleaner).WellFormed()
    requires key in s.unknown ==> Consistent(cfg.w, s.unknown[key])
    ensures var p, t := PhaseOf(s, cleaner), Step(cfg, s, a);
      var q := PhaseOf(t, cleaner);
      && q.OnUnknown() && q.WellFormed() && q.start == p.start
      && (key in t.unknown ==>
        || IsActive(cfg.w, t.unknown[key], p.start)
        || IsLate(cfg, s, a, key, p.start)
        || (key in s.unknown && s.unknown[key] == t.unknown[key] && (Listed(p.todo, key) ==> Listed(q.todo, key))))
  {
    StepOnKey(cfg, s, a, key);
    var p := PhaseOf(s, cleaner);
    if (a.Conclude? || a.ReRead?) && a.cleaner == cleaner && Listed(p.todo, key) && p.todo[0].key != key {
      ListedTail(p.todo, key);
    }
    if key in s.unknown {
      IdleIsInactive(cfg.w, s.unknown[key], p.start);
    }
  }

  lemma CounterIsConsistent(cfg: Config, acts: seq<Action>, key: string)
    requires ValidRun(cfg, acts) && key in Exec(cfg, acts).unknown
    ensures Consistent(cfg.w, Exec(cfg, acts).unknown[key])
  {
    CounterIsReplay(cfg, acts, UnknownSide, key);
    ReplayConsistent(cfg.w, Events(cfg, acts, UnknownSide, key));
  }

  lemma {:induction false} AlwaysSwept(cfg: Config, acts: seq<Action>, pre: nat, cleaner: nat, key: string)
    requires ValidRun(cfg, acts) && pre <= |acts| && StaysInLoop(acts, pre, cleaner)
    requires ValidRun(cfg, acts[..pre]) && PhaseOf(Exec(cfg, acts[..pre]), cleaner).UnknownLoop?
    requires IsSnapshot(Exec(cfg, acts[..pre]).unknown, PhaseOf(Exec(cfg, acts[..pre]), cleaner).todo)
    ensures var p := PhaseOf(Exec(cfg, acts), cleaner);
      && p.OnUnknown() && p.WellFormed() && p.start == PhaseOf(Exec(cfg, acts[..pre]), cleaner).start
      && Swept(cfg, acts, pre, p, key)
  {
    if pre == |acts| {
      assert acts[..pre] == acts;
    } else {
      hide Step, IsLate, IsActive, Listed, EventOf, PhaseOf, Consistent, IsSnapshot, Enabled;
      var front := Front(acts);
      assert front[..pre] == acts[..pre];
      assert acts[|acts| - 1] == Last(acts);
      AlwaysSwept(cfg, front, pre, cleaner, key);
      if key in Exec(cfg, front).unknown {
        CounterIsConsistent(cfg, front, key);
      }
      KeyStaysSwept(cfg, Exec(cfg, front), Last(acts), cleaner, key);
    }
  }

  /** When a loop has come to its end, every counter has been used within two windows of the start of the run, but
      for those that a request with an older reading has touched since the snapshot. */
  lemma LoopLeavesNoneIdle(cfg: Config, acts: seq<Action>, pre: nat, cleaner: nat, key: string)
    requires ValidRun(cfg, acts) && pre <= |acts| && StaysInLoop(acts, pre, cleaner)
    requires ValidRun(cfg, acts[..pre]) && PhaseOf(Exec(cfg, acts[..pre]), cleaner).UnknownLoop?
    requires IsSnapshot(Exec(cfg, acts[..pre]).unknown, PhaseOf(Exec(cfg, acts[..pre]), cleaner).todo)
    requires PhaseOf(Exec(cfg, acts), cleaner).UnknownLoop? && PhaseOf(Exec(cfg, acts), cleaner).todo == []
    requires key in Exec(cfg, acts).unknown
    ensures var start := PhaseOf(Exec(cfg, acts[..pre]), cleaner).start;
      start < Exec(cfg, acts).unknown[key].lastRequest + 2 * WindowLength(cfg.w) || AskedLate(cfg, acts, pre, key, start)
  {
    AlwaysSwept(cfg, acts, pre, cleaner, key);
  }

  lemma {:induction false} NeverLate(cfg: Config, acts: seq<Action>, pre: nat, key: string, lag: nat, start: nat)
    requires ValidRun(cfg, acts) && pre <= |acts| && ValidRun(cfg, acts[..pre]) && start <= Exec(cfg, acts[..pre]).clock
    requires KeyWithinLag(cfg, acts, UnknownSide, key, lag) && lag < 2 * WindowLength(cfg.w)
    ensures start <= Exec(cfg, acts).clock && !AskedLate(cfg, acts, pre, key, start)
  {
    if pre == |acts| {
      assert acts[..pre] == acts;
    } else {
      assert Front(acts)[..pre] == acts[..pre];
      NeverLate(cfg, Front(acts), pre, key, lag, start);
    }
  }

  /** A lag of less than two windows leaves no exception. */
  lemma LoopLeavesAllActive(cfg: Config, acts: seq<Action>, pre: nat, cleaner: nat, key: string, lag: nat)
    requires ValidRun(cfg, acts) && pre <= |acts| && StaysInLoop(acts, pre, cleaner)
    requires ValidRun(cfg, acts[..pre]) && PhaseOf(Exec(cfg, acts[..pre]), cleaner).UnknownLoop?
    requires IsSnapshot(Exec(cfg, acts[..pre]).unknown, PhaseOf(Exec(cfg, acts[..pre]), cleaner).todo)
    requires PhaseOf(Exec(cfg, acts), cleaner).UnknownLoop? && PhaseOf(Exec(cfg, acts), cleaner).todo == []
    requires key in Exec(cfg, acts).unknown
    requires KeyWithinLag(cfg, acts, UnknownSide, key, lag) && lag < 2 * WindowLength(cfg.w)
    ensures PhaseOf(Exec(cfg, acts), cleaner).start < Exec(cfg, acts).unknown[key].lastRequest + 2 * WindowLength(cfg.w)
  {
    AlwaysSwept(cfg, acts, pre, cleaner, key);
    AlwaysCausal(cfg, acts[..pre]);
    var p := PhaseOf(Exec(cfg, acts[..pre]), cleaner);
    assert StartOf(p) == p.start;
    NeverLate(cfg, acts, pre, key, lag, p.start);
  }
}
