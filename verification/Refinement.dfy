/** Every cleanup run of the transition system is a cycle: the requests that interleave with its steps, in their
    order, are the traffic of a script of interludes. So the theorems about cycles hold of running services. */
module Refinement {
  import opened Clock
  import opened Counters
  import opened CounterMaps
  import opened AbuseStore
  import opened Cycles
  import opened Protocol
  import opened Sequences
  import Safety

  const SILENCE := Interlude([], [], [], Acked)

  function EnvOf(script: seq<Interlude>): nat -> Interlude {
    (i: nat) => if i < |script| then script[i] else SILENCE
  }

  lemma {:induction false} CycleByScript(
    s: Setting, l: Ledger, snaps: seq<Snapshot>, e: nat -> Interlude, f: nat -> Interlude)
    requires forall i: nat :: i < |snaps| ==> e(i) == f(i)
    ensures Cycle(s, l, snaps, e) == Cycle(s, l, snaps, f)
  {
    if snaps != [] {
      CycleByScript(s, l, snaps[..|snaps| - 1], e, f);
    }
  }

  lemma CycleStep(s: Setting, l: Ledger, snaps: seq<Snapshot>, script: seq<Interlude>, i: Interlude)
    requires |script| < |snaps|
    ensures var n := |script|;
      Cycle(s, l, snaps[..n + 1], EnvOf(script + [i]))
        == CleanEntry(s, Cycle(s, l, snaps[..n], EnvOf(script)), snaps[n], i)
  {
    var n := |script|;
    assert snaps[..n + 1][..n] == snaps[..n];
    CycleByScript(s, l, snaps[..n], EnvOf(script + [i]), EnvOf(script));
  }

  // ---- What can be seen of a run from outside ----

  /** The requests to the unknown map entry by entry of the loop, the last entry still open; how many counters
      went; how many upserts were acknowledged. */
  datatype Report = Report(turns: seq<seq<Arrival>>, deleted: nat, transferred: nat)

  const NOTHING := Report([[]], 0, 0)

  /** The request to the unknown map that the action serves, as routing says. */
  function ArrivalsOf(cfg: Config, s: State, a: Action): seq<Arrival>
    requires Enabled(cfg, s, a)
  {
    if !a.ApplyRequest? then []
    else
      var p := s.pending[a.thread];
      var route := RouteOfCall(cfg, p.call);
      if route.Shared? then [Arrival(route.key, Request(p.now, route.policy))] else []
  }

  /** The action is the last one of its entry. */
  predicate EndsEntry(cfg: Config, s: State, a: Action)
    requires Enabled(cfg, s, a)
  {
    a.Conclude? || (a.ReRead? && PhaseOf(s, a.cleaner).todo[0].key !in s.unknown)
  }

  predicate DeletesCounter(cfg: Config, s: State, a: Action)
    requires Enabled(cfg, s, a)
  {
    && a.Conclude?
    && var key := PhaseOf(s, a.cleaner).todo[0].key;
      key in s.unknown && key !in Step(cfg, s, a).unknown
  }

  predicate Acknowledges(cfg: Config, s: State, a: Action)
    requires Enabled(cfg, s, a)
  {
    a.SendUpsert? && a.u.Acked? && Place(PhaseOf(s, a.cleaner).todo[0].key).Some?
  }

  function Note(cfg: Config, s: State, a: Action, o: Report): (r: Report)
    requires Enabled(cfg, s, a) && o.turns != []
    ensures r.turns != []
  {
    Report(
      if EndsEntry(cfg, s, a) then o.turns + [[]] else Front(o.turns) + [Last(o.turns) + ArrivalsOf(cfg, s, a)],
      if DeletesCounter(cfg, s, a) then o.deleted + 1 else o.deleted,
      if Acknowledges(cfg, s, a) then o.transferred + 1 else o.transferred)
  }

  predicate ByAnother(a: Action, cleaner: nat) {
    a.ByCleaner() && a.cleaner != cleaner
  }

  /** The report on the requests and the steps of `cleaner` from `pre` on. */
  function Observed(cfg: Config, acts: seq<Action>, pre: nat, cleaner: nat): (r: Report)
    requires ValidRun(cfg, acts) && pre <= |acts|
    ensures r.turns != []
  {
    if |acts| == pre then NOTHING
    else
      var before := Observed(cfg, Front(acts), pre, cleaner);
      if ByAnother(Last(acts), cleaner) then before else Note(cfg, Exec(cfg, Front(acts)), Last(acts), before)
  }

  // ---- The simulation ----

  /** The finished interludes and the one in progress. */
  datatype Trail = Trail(script: seq<Interlude>, part: Interlude)

  function TrafficOf(script: seq<Interlude>): (turns: seq<seq<Arrival>>)
    ensures |turns| == |script|
  {
    seq(|script|, i requires 0 <= i < |script| => script[i].Traffic())
  }

  predicate Acknowledged(t: Trail) {
    t.part.upsert.Acked? && forall i :: 0 <= i < |t.script| ==> t.script[i].upsert.Acked?
  }

  function SettingOf(cfg: Config, p: Phase): Setting
    requires p.OnUnknown()
  {
    Setting(cfg.w, cfg.threshold, p.start, p.redisUp)
  }

  function LedgerOf(s: State): Ledger {
    Ledger(s.unknown, s.records, [], 0, 0, 0)
  }

  /** The entry in progress has gone as far as phase `p` says, starting from ledger `l`. */
  ghost predicate InProgress(st: Setting, l: Ledger, s: State, p: Phase, part: Interlude, sent: nat)
    requires p.OnUnknown()
  {
    var read := Serve(st.w, l.unknown, part.beforeRead);
    var upserting := Serve(st.w, read, part.beforeUpsert);
    match p
    case UnknownLoop(_, _, _) =>
      && part.beforeUpsert == [] && part.beforeDelete == [] && s.unknown == read && s.records == l.records
      && sent == l.transferred
    case Fetched(_, _, todo, live) =>
      && todo != [] && ShouldTransfer(st, todo[0].counter)
      && part.beforeDelete == [] && s.unknown == upserting && s.records == l.records
      && todo[0].key in read && live == read[todo[0].key]
      && sent == l.transferred
    case Upserted(_, _, todo, _) =>
      && todo != [] && ShouldTransfer(st, todo[0].counter)
      && s.unknown == Serve(st.w, upserting, part.beforeDelete)
      && todo[0].key in read
      && s.records == Transfer(l, todo[0].key, read[todo[0].key], part.upsert).records
      && sent == Transfer(l, todo[0].key, read[todo[0].key], part.upsert).transferred
  }

  /** The turns are the traffic of the script and of the entry in progress. */
  predicate AreTurns(turns: seq<seq<Arrival>>, t: Trail) {
    turns == TrafficOf(t.script) + [t.part.Traffic()]
  }

  ghost predicate Follows(cfg: Config, l: Ledger, todo: seq<Snapshot>, s: State, p: Phase, t: Trail, o: Report) {
    && p.OnUnknown()
    && |t.script| <= |todo| && p.todo == todo[|t.script|..]
    && o.turns != [] && AreTurns(o.turns, t)
    && var st := SettingOf(cfg, p);
      var done := Cycle(st, l, todo[..|t.script|], EnvOf(t.script));
      InProgress(st, done, s, p, t.part, o.transferred) && o.deleted == done.deleted
  }

  /** A request joins the batch that is open in the current phase. */
  function Join(p: Phase, part: Interlude, arrival: Arrival): Interlude {
    if p.Fetched? then part.(beforeUpsert := part.beforeUpsert + [arrival])
    else if p.Upserted? then part.(beforeDelete := part.beforeDelete + [arrival])
    else part.(beforeRead := part.beforeRead + [arrival])
  }

  lemma JoinTurns(turns: seq<seq<Arrival>>, p: Phase, t: Trail, arrival: Arrival)
    requires turns != [] && AreTurns(turns, t)
    requires p.UnknownLoop? ==> t.part.beforeUpsert == []
    requires p.UnknownLoop? || p.Fetched? ==> t.part.beforeDelete == []
    requires p.OnUnknown()
    ensures AreTurns(Front(turns) + [Last(turns) + [arrival]], t.(part := Join(p, t.part, arrival)))
  {
    assert Join(p, t.part, arrival).Traffic() == t.part.Traffic() + [arrival];
  }

  lemma StayTurns(turns: seq<seq<Arrival>>, t: Trail, u: Upsert)
    requires turns != [] && AreTurns(turns, t)
    ensures AreTurns(Front(turns) + [Last(turns) + []], t)
    ensures AreTurns(Front(turns) + [Last(turns) + []], t.(part := t.part.(upsert := u)))
  {
    assert Last(turns) + [] == Last(turns);
  }

  lemma EndTurns(turns: seq<seq<Arrival>>, t: Trail)
    requires turns != [] && AreTurns(turns, t)
    ensures AreTurns(turns + [[]], Trail(t.script + [t.part], SILENCE))
  {
    assert SILENCE.Traffic() == [];
    assert TrafficOf(t.script + [t.part]) == TrafficOf(t.script) + [t.part.Traffic()];
  }

  lemma RequestIsArrival(cfg: Config, s: State, a: Action, o: Report)
    requires Enabled(cfg, s, a) && !a.ByCleaner() && o.turns != []
    ensures Step(cfg, s, a).unknown == Serve(cfg.w, s.unknown, ArrivalsOf(cfg, s, a))
    ensures Step(cfg, s, a).records == s.records
    ensures Note(cfg, s, a, o) == o.(turns := Front(o.turns) + [Last(o.turns) + ArrivalsOf(cfg, s, a)])
    ensures |ArrivalsOf(cfg, s, a)| <= 1
  {
    if ArrivalsOf(cfg, s, a) != [] {
      ServeStep(cfg.w, s.unknown, [], ArrivalsOf(cfg, s, a)[0]);
    }
  }

  lemma ArrivalJoins(st: Setting, l: Ledger, s: State, s': State, p: Phase, part: Interlude, sent: nat, a: Arrival)
    requires p.OnUnknown()
    requires InProgress(st, l, s, p, part, sent)
    requires s'.unknown == Act(st.w, s.unknown, a.key, Ask(a.request)) && s'.records == s.records
    ensures InProgress(st, l, s', p, Join(p, part, a), sent)
  {
    hide Act, Transfer;
    var read := Serve(st.w, l.unknown, part.beforeRead);
    ServeStep(st.w, l.unknown, part.beforeRead, a);
    ServeStep(st.w, read, part.beforeUpsert, a);
    ServeStep(st.w, Serve(st.w, read, part.beforeUpsert), part.beforeDelete, a);
  }

  lemma RequestFollows(
    cfg: Config, l: Ledger, todo: seq<Snapshot>, s: State, p: Phase, t: Trail, o: Report, a: Action)
    returns (u: Trail)
    requires Enabled(cfg, s, a) && !a.ByCleaner() && Follows(cfg, l, todo, s, p, t, o)
    ensures Follows(cfg, l, todo, Step(cfg, s, a), p, u, Note(cfg, s, a, o))
    ensures Acknowledged(t) ==> Acknowledged(u)
  {
    hide Cycle, AreTurns, Step, Note, ArrivalsOf, Act, Enabled, EnvOf;
    RequestIsArrival(cfg, s, a, o);
    var arrivals := ArrivalsOf(cfg, s, a);
    if arrivals != [] {
      var st, done := SettingOf(cfg, p), Cycle(SettingOf(cfg, p), l, todo[..|t.script|], EnvOf(t.script));
      assert arrivals == [arrivals[0]];
      JoinTurns(o.turns, p, t, arrivals[0]);
      u := t.(part := Join(p, t.part, arrivals[0]));
      ServeStep(cfg.w, s.unknown, [], arrivals[0]);
      hide InProgress;
      ArrivalJoins(st, done, s, Step(cfg, s, a), p, t.part, o.transferred, arrivals[0]);
    } else {
      u := t;
      StayTurns(o.turns, t, t.part.upsert);
    }
  }

  /** When its last action is done, an entry has done what CleanEntry says. */
  lemma EntryIsClean(cfg: Config, st: Setting, l: Ledger, s: State, p: Phase, part: Interlude, o: Report, a: Action)
    requires Enabled(cfg, s, a) && a.ByCleaner() && PhaseOf(s, a.cleaner) == p && EndsEntry(cfg, s, a)
    requires p.OnUnknown()
    requires st == SettingOf(cfg, p) && InProgress(st, l, s, p, part, o.transferred)
    ensures p.todo != []
    ensures var r, t := CleanEntry(st, l, p.todo[0], part), Step(cfg, s, a);
      t.unknown == r.unknown && t.records == r.records
  {
    hide IsInactive, RecordOf, Place, TallyAfter;
  }

  lemma EntryIsCounted(cfg: Config, st: Setting, l: Ledger, s: State, p: Phase, part: Interlude, o: Report, a: Action)
    requires Enabled(cfg, s, a) && a.ByCleaner() && PhaseOf(s, a.cleaner) == p && EndsEntry(cfg, s, a)
    requires p.OnUnknown()
    requires st == SettingOf(cfg, p) && InProgress(st, l, s, p, part, o.transferred)
    requires o.deleted == l.deleted && o.turns != []
    ensures p.todo != []
    ensures var r, n := CleanEntry(st, l, p.todo[0], part), Note(cfg, s, a, o);
      n.deleted == r.deleted && n.transferred == r.transferred && n.turns == o.turns + [[]]
  {
    hide IsInactive, RecordOf, Place, TallyAfter, RecordsAfter, ArrivalsOf, Lost;
  }

  lemma NextEntry(cfg: Config, s: State, a: Action)
    requires Enabled(cfg, s, a) && a.ByCleaner() && EndsEntry(cfg, s, a)
    ensures var p := PhaseOf(s, a.cleaner);
      p.OnUnknown() && p.todo != [] && PhaseAfter(cfg, s, a) == UnknownLoop(p.start, p.redisUp, p.todo[1..])
  {
  }

  /** Between two entries. */
  lemma BetweenEntries(
    cfg: Config, l: Ledger, todo: seq<Snapshot>, s: State, p: Phase, script: seq<Interlude>, o: Report)
    requires p.UnknownLoop? && |script| <= |todo| && p.todo == todo[|script|..]
    requires o.turns != [] && AreTurns(o.turns, Trail(script, SILENCE))
    requires var r := Cycle(SettingOf(cfg, p), l, todo[..|script|], EnvOf(script));
      s.unknown == r.unknown && s.records == r.records && o.deleted == r.deleted && o.transferred == r.transferred
    ensures Follows(cfg, l, todo, s, p, Trail(script, SILENCE), o)
  {
    hide Cycle, AreTurns, EnvOf;
  }

  /** The entry in progress is complete: its interlude joins the script. */
  lemma EntryCompletes(
    cfg: Config, l: Ledger, todo: seq<Snapshot>, s: State, p: Phase, t: Trail, o: Report, a: Action)
    requires Enabled(cfg, s, a) && a.ByCleaner() && PhaseOf(s, a.cleaner) == p && Follows(cfg, l, todo, s, p, t, o)
    requires EndsEntry(cfg, s, a)
    ensures Follows(
      cfg, l, todo, Step(cfg, s, a), PhaseAfter(cfg, s, a), Trail(t.script + [t.part], SILENCE), Note(cfg, s, a, o))
  {
    hide Cycle, CleanEntry, AreTurns, Step, Note, EnvOf, PhaseAfter, EndsEntry, Enabled, InProgress;
    var st, n := SettingOf(cfg, p), |t.script|;
    EntryIsClean(cfg, st, Cycle(st, l, todo[..n], EnvOf(t.script)), s, p, t.part, o, a);
    EntryIsCounted(cfg, st, Cycle(st, l, todo[..n], EnvOf(t.script)), s, p, t.part, o, a);
    CycleStep(st, l, todo, t.script, t.part);
    EndTurns(o.turns, t);
    NextEntry(cfg, s, a);
    assert p.todo[1..] == todo[n + 1..];
    BetweenEntries(cfg, l, todo, Step(cfg, s, a), PhaseAfter(cfg, s, a), t.script + [t.part], Note(cfg, s, a, o));
  }

  /** The re-read of a live counter, and the upsert. */
  lemma EntryGoesOn(
    cfg: Config, l: Ledger, todo: seq<Snapshot>, s: State, p: Phase, t: Trail, o: Report, a: Action, u: Trail)
    requires Enabled(cfg, s, a) && (a.ReRead? || a.SendUpsert?) && !EndsEntry(cfg, s, a)
    requires PhaseOf(s, a.cleaner) == p && Follows(cfg, l, todo, s, p, t, o)
    requires u == if a.ReRead? then t else t.(part := t.part.(upsert := a.u))
    ensures Follows(cfg, l, todo, Step(cfg, s, a), PhaseAfter(cfg, s, a), u, Note(cfg, s, a, o))
  {
    hide Cycle, IsInactive, RecordOf, Place, AreTurns, TallyAfter;
    StayTurns(o.turns, t, if a.ReRead? then t.part.upsert else a.u);
  }

  lemma CleanerFollows(
    cfg: Config, l: Ledger, todo: seq<Snapshot>, s: State, p: Phase, t: Trail, o: Report, a: Action)
    returns (u: Trail)
    requires Enabled(cfg, s, a) && (a.ReRead? || a.SendUpsert? || a.Conclude?)
    requires PhaseOf(s, a.cleaner) == p && Follows(cfg, l, todo, s, p, t, o)
    ensures Follows(cfg, l, todo, Step(cfg, s, a), PhaseAfter(cfg, s, a), u, Note(cfg, s, a, o))
    ensures Acknowledged(t) && (a.SendUpsert? ==> a.u.Acked?) ==> Acknowledged(u)
  {
    hide InProgress, Cycle, AreTurns, Step, Note;
    if EndsEntry(cfg, s, a) {
      EntryCompletes(cfg, l, todo, s, p, t, o, a);
      u := Trail(t.script + [t.part], SILENCE);
    } else {
      u := if a.ReRead? then t else t.(part := t.part.(upsert := a.u));
      EntryGoesOn(cfg, l, todo, s, p, t, o, a, u);
    }
  }

  /** A step that the loop of `cleaner` itself takes, or that leaves alone what it works on. */
  predicate LoopStep(a: Action, cleaner: nat) {
    a.ByCleaner() ==>
      if a.cleaner == cleaner then a.ReRead? || a.SendUpsert? || a.Conclude? else !a.SendUpsert? && !a.Conclude?
  }

  /** From `pre` to the end of `acts`, `cleaner` is inside its loop, and no other run writes records or deletes
      unknown counters. */
  predicate InLoop(acts: seq<Action>, pre: nat, cleaner: nat) {
    forall i :: pre <= i < |acts| ==> LoopStep(acts[i], cleaner)
  }

  lemma OthersFollow(cfg: Config, l: Ledger, todo: seq<Snapshot>, s: State, p: Phase, t: Trail, o: Report, a: Action)
    requires Enabled(cfg, s, a) && a.ByCleaner() && !a.SendUpsert? && !a.Conclude?
    requires Follows(cfg, l, todo, s, p, t, o)
    ensures Follows(cfg, l, todo, Step(cfg, s, a), p, t, o)
  {
    hide Cycle, AreTurns, TallyAfter, PhaseAfter;
  }

  lemma PhaseMoves(cfg: Config, s: State, a: Action, cleaner: nat)
    requires Enabled(cfg, s, a)
    requires LoopStep(a, cleaner)
    ensures var p, q := PhaseOf(s, cleaner), PhaseOf(Step(cfg, s, a), cleaner);
      && q == (if a.ByCleaner() && a.cleaner == cleaner then PhaseAfter(cfg, s, a) else p)
      && (p.OnUnknown() ==> q.OnUnknown() && q.start == p.start && q.redisUp == p.redisUp)
  {
  }

  /** Redis acknowledges every upsert from `pre` on. */
  predicate AcksAll(acts: seq<Action>, pre: nat) {
    forall i :: pre <= i < |acts| && acts[i].SendUpsert? ==> acts[i].u.Acked?
  }

  /** From a snapshot on, any interleaving of requests with one run's steps follows a script. */
  lemma {:induction false} RunFollowsScript(cfg: Config, acts: seq<Action>, pre: nat, cleaner: nat) returns (t: Trail)
    requires ValidRun(cfg, acts) && pre <= |acts| && InLoop(acts, pre, cleaner)
    requires ValidRun(cfg, acts[..pre]) && PhaseOf(Exec(cfg, acts[..pre]), cleaner).UnknownLoop?
    ensures var s0, s := Exec(cfg, acts[..pre]), Exec(cfg, acts);
      Follows(
        cfg, LedgerOf(s0), PhaseOf(s0, cleaner).todo, s, PhaseOf(s, cleaner), t, Observed(cfg, acts, pre, cleaner))
    ensures var p0, p := PhaseOf(Exec(cfg, acts[..pre]), cleaner), PhaseOf(Exec(cfg, acts), cleaner);
      p.start == p0.start && p.redisUp == p0.redisUp
    ensures AcksAll(acts, pre) ==> Acknowledged(t)
  {
    if pre == |acts| {
      assert acts[..pre] == acts;
      t := Trail([], SILENCE);
      assert SILENCE.Traffic() == [] && AreTurns(NOTHING.turns, t);
      assert PhaseOf(Exec(cfg, acts), cleaner).todo[0..] == PhaseOf(Exec(cfg, acts), cleaner).todo;
    } else {
      hide InProgress, Cycle, AreTurns, Acknowledged, Step, Note, PhaseAfter, EventOf, Enabled;
      var front, a := Front(acts), Last(acts);
      assert front[..pre] == acts[..pre];
      var u := RunFollowsScript(cfg, front, pre, cleaner);
      var s0, s, o := Exec(cfg, acts[..pre]), Exec(cfg, front), Observed(cfg, front, pre, cleaner);
      PhaseMoves(cfg, s, a, cleaner);
      assert LoopStep(acts[|acts| - 1], cleaner);
      if ByAnother(a, cleaner) {
        t := u;
        OthersFollow(cfg, LedgerOf(s0), PhaseOf(s0, cleaner).todo, s, PhaseOf(s, cleaner), u, o, a);
      } else if a.ByCleaner() {
        t := CleanerFollows(cfg, LedgerOf(s0), PhaseOf(s0, cleaner).todo, s, PhaseOf(s, cleaner), u, o, a);
      } else {
        t := RequestFollows(cfg, LedgerOf(s0), PhaseOf(s0, cleaner).todo, s, PhaseOf(s, cleaner), u, o, a);
      }
    }
  }

  // ---- Finished loops ----

  /** `acts` runs the whole loop of `cleaner` over the unknown map: it starts at `pre`, with its snapshot. */
  ghost predicate RunsLoop(cfg: Config, acts: seq<Action>, pre: nat, cleaner: nat) {
    && ValidRun(cfg, acts) && pre <= |acts| && ValidRun(cfg, acts[..pre]) && InLoop(acts, pre, cleaner)
    && var p, q := PhaseOf(Exec(cfg, acts[..pre]), cleaner), PhaseOf(Exec(cfg, acts), cleaner);
      && p.UnknownLoop? && IsSnapshot(Exec(cfg, acts[..pre]).unknown, p.todo)
      && q.UnknownLoop? && q.todo == []
  }

  /** The loop has done what the cycle over its snapshot does under `script`: the turns of the run are the traffic
      of the interludes, and `last` are the requests after the last entry. */
  ghost predicate IsScript(
    cfg: Config, acts: seq<Action>, pre: nat, cleaner: nat, script: seq<Interlude>, last: seq<Arrival>)
    requires RunsLoop(cfg, acts, pre, cleaner)
  {
    var s0, s, seen := Exec(cfg, acts[..pre]), Exec(cfg, acts), Observed(cfg, acts, pre, cleaner);
    var p := PhaseOf(s0, cleaner);
    var r := Cycle(SettingOf(cfg, p), LedgerOf(s0), p.todo, EnvOf(script));
    && |script| == |p.todo| && seen.turns == TrafficOf(script) + [last]
    && s.unknown == Serve(cfg.w, r.unknown, last) && s.records == r.records
    && seen.deleted == r.deleted && seen.transferred == r.transferred
    && (AcksAll(acts, pre) ==> forall i :: 0 <= i < |script| ==> script[i].upsert.Acked?)
  }

  /** A finished loop has done what the cycle over its snapshot does while it serves just the requests of the run,
      each in the turn in which it came. */
  lemma RunIsCycle(cfg: Config, acts: seq<Action>, pre: nat, cleaner: nat)
    requires RunsLoop(cfg, acts, pre, cleaner)
    ensures exists script, last :: IsScript(cfg, acts, pre, cleaner, script, last)
  {
    var t := RunFollowsScript(cfg, acts, pre, cleaner);
    var p := PhaseOf(Exec(cfg, acts[..pre]), cleaner);
    assert p.todo[..|t.script|] == p.todo;
    assert t.part.Traffic() == t.part.beforeRead;
    assert IsScript(cfg, acts, pre, cleaner, t.script, t.part.beforeRead);
  }

  lemma SameTraffic(a: seq<Interlude>, b: seq<Interlude>, x: seq<Arrival>, y: seq<Arrival>)
    requires |a| == |b| && TrafficOf(a) + [x] == TrafficOf(b) + [y]
    ensures x == y
    ensures forall i: nat :: EnvOf(a)(i).Traffic() == EnvOf(b)(i).Traffic()
  {
    assert x == (TrafficOf(a) + [x])[|a|] == (TrafficOf(b) + [y])[|b|] == y;
    forall i: nat | i < |a| ensures a[i].Traffic() == b[i].Traffic() {
      assert a[i].Traffic() == (TrafficOf(a) + [x])[i] == (TrafficOf(b) + [y])[i] == b[i].Traffic();
    }
  }

  /** Two loops of two services, over the same snapshot at the same time and with the same requests in each turn,
      leave the same counters and delete equally many: thresholds, the health of Redis, the fate of every upsert
      and the records that were there before have no say. */
  lemma LoopIgnoresRedis(
    cfg: Config, acts: seq<Action>, pre: nat, cleaner: nat, cfg': Config, acts': seq<Action>, pre': nat, cleaner': nat)
    requires RunsLoop(cfg, acts, pre, cleaner) && RunsLoop(cfg', acts', pre', cleaner') && cfg.w == cfg'.w
    requires var s, s' := Exec(cfg, acts[..pre]), Exec(cfg', acts'[..pre']);
      && s.unknown == s'.unknown
      && PhaseOf(s, cleaner).start == PhaseOf(s', cleaner').start
      && PhaseOf(s, cleaner).todo == PhaseOf(s', cleaner').todo
    requires Observed(cfg, acts, pre, cleaner).turns == Observed(cfg', acts', pre', cleaner').turns
    ensures Exec(cfg, acts).unknown == Exec(cfg', acts').unknown
    ensures Observed(cfg, acts, pre, cleaner).deleted == Observed(cfg', acts', pre', cleaner').deleted
  {
    hide Exec, Cycle, InLoop, ValidRun, Observed;
    RunIsCycle(cfg, acts, pre, cleaner);
    RunIsCycle(cfg', acts', pre', cleaner');
    var script, last :| IsScript(cfg, acts, pre, cleaner, script, last);
    var script', last' :| IsScript(cfg', acts', pre', cleaner', script', last');
    SameTraffic(script, script', last, last');
    var s, s' := Exec(cfg, acts[..pre]), Exec(cfg', acts'[..pre']);
    var p, p' := PhaseOf(s, cleaner), PhaseOf(s', cleaner');
    MemoryIgnoresRedis(
      SettingOf(cfg, p), SettingOf(cfg', p'), LedgerOf(s), LedgerOf(s'), p.todo, EnvOf(script), EnvOf(script'));
  }

  predicate NoTraffic(turns: seq<seq<Arrival>>) {
    forall i :: 0 <= i < |turns| ==> turns[i] == []
  }

  lemma QuietScript(script: seq<Interlude>, last: seq<Arrival>)
    requires NoTraffic(TrafficOf(script) + [last])
    requires forall i :: 0 <= i < |script| ==> script[i].upsert.Acked?
    ensures last == [] && forall i: nat :: Quiet(EnvOf(script)(i))
  {
    assert (TrafficOf(script) + [last])[|script|] == last;
    assert SILENCE.Traffic() == [];
    forall i: nat | i < |script| ensures script[i].Traffic() == [] {
      assert script[i].Traffic() == (TrafficOf(script) + [last])[i];
    }
  }

  /** A loop of the service that meets no request and has all its upserts acknowledged leaves exactly the active
      counters, writes exactly the records of the counters over the threshold, and counts both correctly. */
  lemma QuietLoopIsExact(cfg: Config, acts: seq<Action>, pre: nat, cleaner: nat)
    requires RunsLoop(cfg, acts, pre, cleaner) && PhaseOf(Exec(cfg, acts[..pre]), cleaner).redisUp
    requires AcksAll(acts, pre) && NoTraffic(Observed(cfg, acts, pre, cleaner).turns)
    ensures var s0, s, seen := Exec(cfg, acts[..pre]), Exec(cfg, acts), Observed(cfg, acts, pre, cleaner);
      var st := SettingOf(cfg, PhaseOf(s0, cleaner));
      && s.unknown == s0.unknown - IdleKeys(st, s0.unknown)
      && Written(s0.unknown, Abusers(st, s0.unknown), s0.records, s.records)
      && seen.deleted == |IdleKeys(st, s0.unknown)|
      && seen.transferred == |Abusers(st, s0.unknown)|
  {
    hide Exec, Cycle, InLoop, ValidRun, Observed, Written;
    RunIsCycle(cfg, acts, pre, cleaner);
    var script, last :| IsScript(cfg, acts, pre, cleaner, script, last);
    QuietScript(script, last);
    var s0 := Exec(cfg, acts[..pre]);
    var p := PhaseOf(s0, cleaner);
    UnknownIsNamespaced(cfg, acts[..pre]);
    QuietCycleIsExact(SettingOf(cfg, p), LedgerOf(s0), p.todo, EnvOf(script));
  }

  lemma UnknownIsNamespaced(cfg: Config, acts: seq<Action>)
    requires ValidRun(cfg, acts)
    ensures AllNamespaced(Exec(cfg, acts).unknown)
  {
    Safety.AlwaysNamed(cfg, acts);
    forall k | k in Exec(cfg, acts).unknown ensures Place(k).Some? {
      assert Safety.IsClient(k);
      OriginOfPlace(k);
    }
  }
}
