/** A cleanup run's loop over the known map is a known cycle: the requests that interleave with its steps, in their
    order, are the arrivals of a script of interludes, and the replies of Redis are its checks. */
module KnownLoops {
  import opened Clock
  import opened Counters
  import opened CounterMaps
  import opened AbuseStore
  import opened Cycles
  import opened Protocol
  import opened Sequences

  const NO_NEWS := KnownInterlude([], ExistsUnreachable)

  function EnvOf(script: seq<KnownInterlude>): nat -> KnownInterlude {
    (i: nat) => if i < |script| then script[i] else NO_NEWS
  }

  /** The snapshot that the keys of the loop stand for. */
  function SnapsOf(m: CounterMap, keys: seq<string>): (snaps: seq<Snapshot>)
    requires forall i :: 0 <= i < |keys| ==> keys[i] in m
    ensures |snaps| == |keys|
  {
    seq(|keys|, i requires 0 <= i < |keys| => Entry(keys[i], m[keys[i]]))
  }

  // ---- What can be seen of a loop from outside ----

  /** The finished entries with the requests to the known map before them and the reply to each; the requests since;
      how many counters the loop has counted as deleted. */
  datatype Report = Report(script: seq<KnownInterlude>, open: seq<Arrival>, deleted: nat)

  const NOTHING := Report([], [], 0)

  /** The request to the known map that the action serves, as routing says. */
  function ArrivalsOf(cfg: Config, s: State, a: Action): seq<Arrival>
    requires Enabled(cfg, s, a)
  {
    if !a.ApplyRequest? then []
    else
      var p := s.pending[a.thread];
      var route := RouteOfCall(cfg, p.call);
      if route.Individual? then [Arrival(route.key, Request(p.now, route.policy))] else []
  }

  /** The check counts a deletion: the limit is gone, or the counter was idle and went. */
  predicate CountsDeletion(cfg: Config, s: State, a: Action)
    requires Enabled(cfg, s, a)
  {
    && a.CheckKnown? && a.check.Count?
    && var key := PhaseOf(s, a.cleaner).keys[0];
      a.check.n == 0 || (key in s.known && key !in Step(cfg, s, a).known)
  }

  function Note(cfg: Config, s: State, a: Action, o: Report): Report
    requires Enabled(cfg, s, a)
  {
    Report(
      if a.CheckKnown? then o.script + [KnownInterlude(o.open, a.check)] else o.script,
      if a.CheckKnown? then [] else o.open + ArrivalsOf(cfg, s, a),
      if CountsDeletion(cfg, s, a) then o.deleted + 1 else o.deleted)
  }

  /** The report on the requests and the steps of `cleaner` from `pre` on. */
  function Observed(cfg: Config, acts: seq<Action>, pre: nat, cleaner: nat): Report
    requires ValidRun(cfg, acts) && pre <= |acts|
  {
    if |acts| == pre then NOTHING
    else
      var before := Observed(cfg, Front(acts), pre, cleaner);
      if Last(acts).ByCleaner() && Last(acts).cleaner != cleaner then before
      else Note(cfg, Exec(cfg, Front(acts)), Last(acts), before)
  }

  // ---- The simulation ----

  /** A step that the loop of `cleaner` itself takes, or that leaves the known map alone. */
  predicate LoopStep(a: Action, cleaner: nat) {
    a.ByCleaner() ==> if a.cleaner == cleaner then a.CheckKnown? else !a.CheckKnown?
  }

  /** From `pre` to the end of `acts`, `cleaner` is inside its loop, and no other run deletes known counters. */
  predicate InLoop(acts: seq<Action>, pre: nat, cleaner: nat) {
    forall i :: pre <= i < |acts| ==> LoopStep(acts[i], cleaner)
  }

  ghost function CycleOf(w: Seconds, start: nat, m: CounterMap, snaps: seq<Snapshot>, script: seq<KnownInterlude>)
    : KnownLedger
  {
    KnownCycle(w, start, KnownLedger(m, [], 0, 0), snaps, EnvOf(script))
  }

  ghost predicate Follows(w: Seconds, m: CounterMap, snaps: seq<Snapshot>, s: State, p: Phase, o: Report) {
    && p.KnownLoop? && |o.script| <= |snaps| && |p.keys| == |snaps| - |o.script|
    && (forall i :: 0 <= i < |p.keys| ==> p.keys[i] == snaps[|o.script| + i].key)
    && var done := CycleOf(w, p.start, m, snaps[..|o.script|], o.script);
      s.known == Serve(w, done.known, o.open) && o.deleted == done.deleted
  }

  lemma {:induction false} CycleByScript(
    w: Seconds, now: nat, l: KnownLedger, snaps: seq<Snapshot>, e: nat -> KnownInterlude, f: nat -> KnownInterlude)
    requires forall i: nat :: i < |snaps| ==> e(i) == f(i)
    ensures KnownCycle(w, now, l, snaps, e) == KnownCycle(w, now, l, snaps, f)
  {
    if snaps != [] {
      CycleByScript(w, now, l, snaps[..|snaps| - 1], e, f);
    }
  }

  lemma CycleStep(
    w: Seconds, now: nat, m: CounterMap, snaps: seq<Snapshot>, script: seq<KnownInterlude>, i: KnownInterlude)
    requires |script| < |snaps|
    ensures var n := |script|;
      CycleOf(w, now, m, snaps[..n + 1], script + [i])
        == KnownEntry(w, now, CycleOf(w, now, m, snaps[..n], script), snaps[n], i)
  {
    var n := |script|;
    assert snaps[..n + 1][..n] == snaps[..n];
    CycleByScript(w, now, KnownLedger(m, [], 0, 0), snaps[..n], EnvOf(script + [i]), EnvOf(script));
  }

  lemma RequestIsArrival(cfg: Config, s: State, a: Action, o: Report)
    requires Enabled(cfg, s, a) && !a.ByCleaner()
    ensures Step(cfg, s, a).known == Serve(cfg.w, s.known, ArrivalsOf(cfg, s, a))
    ensures Note(cfg, s, a, o) == o.(open := o.open + ArrivalsOf(cfg, s, a))
  {
    if ArrivalsOf(cfg, s, a) != [] {
      ServeStep(cfg.w, s.known, [], ArrivalsOf(cfg, s, a)[0]);
    }
  }

  lemma RequestFollows(
    cfg: Config, m: CounterMap, snaps: seq<Snapshot>, s: State, p: Phase, o: Report, a: Action)
    requires Enabled(cfg, s, a) && !a.ByCleaner() && Follows(cfg.w, m, snaps, s, p, o)
    ensures Follows(cfg.w, m, snaps, Step(cfg, s, a), p, Note(cfg, s, a, o))
  {
    hide CycleOf, Step, Note, Serve, ArrivalsOf, Enabled;
    RequestIsArrival(cfg, s, a, o);
    var done := CycleOf(cfg.w, p.start, m, snaps[..|o.script|], o.script);
    ServeConcat(cfg.w, done.known, o.open, ArrivalsOf(cfg, s, a));
  }

  /** A check does what KnownEntry says. */
  lemma CheckIsEntry(cfg: Config, l: KnownLedger, s: State, p: Phase, snap: Snapshot, o: Report, a: Action)
    requires Enabled(cfg, s, a) && a.CheckKnown? && PhaseOf(s, a.cleaner) == p && p.keys[0] == snap.key
    requires s.known == Serve(cfg.w, l.known, o.open) && o.deleted == l.deleted
    ensures var r := KnownEntry(cfg.w, p.start, l, snap, KnownInterlude(o.open, a.check));
      Step(cfg, s, a).known == r.known && Note(cfg, s, a, o).deleted == r.deleted
  {
    hide IsInactive, TallyAfter, Serve;
  }

  lemma CheckFollows(
    cfg: Config, m: CounterMap, snaps: seq<Snapshot>, s: State, p: Phase, o: Report, a: Action)
    requires Enabled(cfg, s, a) && a.CheckKnown? && PhaseOf(s, a.cleaner) == p && Follows(cfg.w, m, snaps, s, p, o)
    ensures Follows(cfg.w, m, snaps, Step(cfg, s, a), PhaseAfter(cfg, s, a), Note(cfg, s, a, o))
  {
    var n := |o.script|;
    CheckIsEntry(cfg, CycleOf(cfg.w, p.start, m, snaps[..n], o.script), s, p, snaps[n], o, a);
    CycleStep(cfg.w, p.start, m, snaps, o.script, KnownInterlude(o.open, a.check));
    hide CycleOf, KnownEntry, TallyAfter, EventOf;
  }

  lemma OthersFollow(
    cfg: Config, m: CounterMap, snaps: seq<Snapshot>, s: State, p: Phase, o: Report, a: Action)
    requires Enabled(cfg, s, a) && a.ByCleaner() && !a.CheckKnown? && Follows(cfg.w, m, snaps, s, p, o)
    ensures Follows(cfg.w, m, snaps, Step(cfg, s, a), p, o)
  {
    hide CycleOf, TallyAfter, PhaseAfter, RecordsAfter;
  }

  lemma PhaseMoves(cfg: Config, s: State, a: Action, cleaner: nat)
    requires Enabled(cfg, s, a) && LoopStep(a, cleaner)
    ensures var p, q := PhaseOf(s, cleaner), PhaseOf(Step(cfg, s, a), cleaner);
      && q == (if a.ByCleaner() && a.cleaner == cleaner then PhaseAfter(cfg, s, a) else p)
      && (p.KnownLoop? ==> q.KnownLoop? && q.start == p.start)
  {
  }

  /** `acts` starts the loop of `cleaner` over the known map at `pre`, with its snapshot, and stays in it. */
  ghost predicate RunsLoop(cfg: Config, acts: seq<Action>, pre: nat, cleaner: nat) {
    && ValidRun(cfg, acts) && pre <= |acts| && ValidRun(cfg, acts[..pre]) && InLoop(acts, pre, cleaner)
    && var s, p := Exec(cfg, acts[..pre]), PhaseOf(Exec(cfg, acts[..pre]), cleaner);
      && p.KnownLoop?
      && (forall i, j :: 0 <= i < j < |p.keys| ==> p.keys[i] != p.keys[j])
      && (forall i :: 0 <= i < |p.keys| ==> p.keys[i] in s.known)
  }

  predicate Finished(s: State, cleaner: nat) {
    PhaseOf(s, cleaner).KnownLoop? && PhaseOf(s, cleaner).keys == []
  }

  lemma {:induction false} LoopFollows(cfg: Config, acts: seq<Action>, pre: nat, cleaner: nat)
    requires RunsLoop(cfg, acts, pre, cleaner)
    ensures var s0, s := Exec(cfg, acts[..pre]), Exec(cfg, acts);
      var p0, p := PhaseOf(s0, cleaner), PhaseOf(s, cleaner);
      && Follows(cfg.w, s0.known, SnapsOf(s0.known, p0.keys), s, p, Observed(cfg, acts, pre, cleaner))
      && p.start == p0.start
  {
    if pre == |acts| {
      assert acts[..pre] == acts;
    } else {
      hide Follows, Step, Note, PhaseAfter, Enabled, CycleOf, SnapsOf;
      var front, a := Front(acts), Last(acts);
      assert front[..pre] == acts[..pre];
      LoopFollows(cfg, front, pre, cleaner);
      var s0, s, o := Exec(cfg, acts[..pre]), Exec(cfg, front), Observed(cfg, front, pre, cleaner);
      var p, snaps := PhaseOf(s, cleaner), SnapsOf(s0.known, PhaseOf(s0, cleaner).keys);
      assert LoopStep(acts[|acts| - 1], cleaner);
      PhaseMoves(cfg, s, a, cleaner);
      if !a.ByCleaner() {
        RequestFollows(cfg, s0.known, snaps, s, p, o, a);
      } else if a.cleaner == cleaner {
        CheckFollows(cfg, s0.known, snaps, s, p, o, a);
      } else {
        OthersFollow(cfg, s0.known, snaps, s, p, o, a);
      }
    }
  }

  /** A finished loop has done what the known cycle over its snapshot does while it serves just the requests of the
      run, each before the entry before which it came, and gets just the replies of the run. */
  lemma LoopIsKnownCycle(cfg: Config, acts: seq<Action>, pre: nat, cleaner: nat)
    requires RunsLoop(cfg, acts, pre, cleaner) && Finished(Exec(cfg, acts), cleaner)
    ensures var s0, s, seen := Exec(cfg, acts[..pre]), Exec(cfg, acts), Observed(cfg, acts, pre, cleaner);
      var p := PhaseOf(s0, cleaner);
      var r := CycleOf(cfg.w, p.start, s0.known, SnapsOf(s0.known, p.keys), seen.script);
      && |seen.script| == |p.keys|
      && s.known == Serve(cfg.w, r.known, seen.open) && seen.deleted == r.deleted
  {
    LoopFollows(cfg, acts, pre, cleaner);
    var s0 := Exec(cfg, acts[..pre]);
    var snaps := SnapsOf(s0.known, PhaseOf(s0, cleaner).keys);
    assert snaps[..|snaps|] == snaps;
  }

  predicate NoTraffic(o: Report) {
    o.open == [] && forall i :: 0 <= i < |o.script| ==> o.script[i].arrivals == []
  }

  /** A finished loop that meets no request takes away exactly the counters whose limit Redis reports as gone, and
      the idle ones whose limit it confirms, and counts them. */
  lemma QuietKnownLoopIsExact(cfg: Config, acts: seq<Action>, pre: nat, cleaner: nat)
    requires RunsLoop(cfg, acts, pre, cleaner) && Finished(Exec(cfg, acts), cleaner)
    requires NoTraffic(Observed(cfg, acts, pre, cleaner))
    ensures var s0, seen := Exec(cfg, acts[..pre]), Observed(cfg, acts, pre, cleaner);
      var p := PhaseOf(s0, cleaner);
      var doomed := DoomedKeys(cfg.w, p.start, SnapsOf(s0.known, p.keys), EnvOf(seen.script));
      Exec(cfg, acts).known == s0.known - doomed && seen.deleted == |doomed|
  {
    hide KnownCycle, DoomedKeys, Observed, InLoop, ValidRun;
    LoopIsKnownCycle(cfg, acts, pre, cleaner);
    var s0, script := Exec(cfg, acts[..pre]), Observed(cfg, acts, pre, cleaner).script;
    var p := PhaseOf(s0, cleaner);
    QuietKnownCycle(cfg.w, p.start, KnownLedger(s0.known, [], 0, 0), SnapsOf(s0.known, p.keys), EnvOf(script));
  }
}
