/** What a cleanup run may rely on between its snapshot, its re-read, its upsert and its delete. */
module Transfers {
  import opened Clock
  import opened Wrappers
  import opened Counters
  import opened CounterMaps
  import opened AbuseStore
  import opened Protocol
  import opened Sequences
  import opened Safety
  import History

  // ---- No update is lost between the upsert and the delete ----

  /** The run is between its re-read of `key` and its delete. */
  predicate Handles(p: Phase, key: string) {
    (p.Fetched? || p.Upserted?) && p.todo != [] && p.todo[0].key == key
  }

  /** A request of `key` that comes between the re-read and the delete of `cleaner` reads the clock less than two
      windows before the start of that run. */
  predicate ReadingsAreFresh(cfg: Config, acts: seq<Action>, cleaner: nat, key: string)
    requires ValidRun(cfg, acts)
  {
    acts == [] || (
      && ReadingsAreFresh(cfg, Front(acts), cleaner, key)
      && IsFresh(cfg, Exec(cfg, Front(acts)), Last(acts), cleaner, key))
  }

  predicate IsFresh(cfg: Config, s: State, a: Action, cleaner: nat, key: string)
    requires Enabled(cfg, s, a)
  {
    var e, p := EventOf(cfg, s, a, UnknownSide), PhaseOf(s, cleaner);
    a.ApplyRequest? && e.Some? && e.value.key == key && Handles(p, key) ==>
      p.start < e.value.event.request.now + 2 * WindowLength(cfg.w)
  }

  /** A lag of less than two windows between reading and lock is enough for that. */
  lemma {:induction false} LagMakesFresh(cfg: Config, acts: seq<Action>, lag: nat, cleaner: nat, key: string)
    requires ValidRun(cfg, acts) && KeyWithinLag(cfg, acts, UnknownSide, key, lag) && lag < 2 * WindowLength(cfg.w)
    ensures ReadingsAreFresh(cfg, acts, cleaner, key)
  {
    if acts != [] {
      LagMakesFresh(cfg, Front(acts), lag, cleaner, key);
      AlwaysCausal(cfg, Front(acts));
      var p := PhaseOf(Exec(cfg, Front(acts)), cleaner);
      assert StartOf(p) <= Exec(cfg, Front(acts)).clock;
    }
  }

  /** The counter of `key` is gone, is what `rec` says, or was used too recently to be deleted. */
  predicate UpToDate(w: Seconds, m: CounterMap, key: string, rec: AbuseRecord, start: nat) {
    key in m ==> RecordOf(m[key]) == rec || start < m[key].lastRequest + 2 * WindowLength(w)
  }

  predicate PhaseUpToDate(w: Seconds, m: CounterMap, p: Phase, key: string) {
    && p.WellFormed()
    && (p.Fetched? && Handles(p, key) ==> UpToDate(w, m, key, RecordOf(p.live), p.start))
    && (p.Upserted? && p.acked.Some? && Handles(p, key) ==> UpToDate(w, m, key, p.acked.value, p.start))
  }

  lemma EffectKeepsUpToDate(w: Seconds, m: CounterMap, e: Option<KeyEvent>, p: Phase, key: string)
    requires PhaseUpToDate(w, m, p, key)
    requires e.Some? && e.value.key == key && e.value.event.Ask? && Handles(p, key) ==>
      p.start < e.value.event.request.now + 2 * WindowLength(w)
    ensures PhaseUpToDate(w, Effect(w, m, e), p, key)
  {
  }

  lemma PhaseBecomesUpToDate(cfg: Config, s: State, a: Action, key: string)
    requires Enabled(cfg, s, a) && a.ByCleaner() && PhaseUpToDate(cfg.w, s.unknown, PhaseOf(s, a.cleaner), key)
    ensures PhaseUpToDate(cfg.w, Step(cfg, s, a).unknown, PhaseAfter(cfg, s, a), key)
  {
  }

  lemma StepKeepsUpToDate(cfg: Config, s: State, a: Action, cleaner: nat, key: string)
    requires Enabled(cfg, s, a) && IsFresh(cfg, s, a, cleaner, key)
    requires PhaseUpToDate(cfg.w, s.unknown, PhaseOf(s, cleaner), key)
    ensures PhaseUpToDate(cfg.w, Step(cfg, s, a).unknown, PhaseOf(Step(cfg, s, a), cleaner), key)
  {
    if a.ByCleaner() && cleaner == a.cleaner {
      PhaseBecomesUpToDate(cfg, s, a, key);
    } else {
      EffectKeepsUpToDate(cfg.w, s.unknown, EventOf(cfg, s, a, UnknownSide), PhaseOf(s, cleaner), key);
    }
  }

  lemma {:induction false} AlwaysUpToDate(cfg: Config, acts: seq<Action>, cleaner: nat, key: string)
    requires ValidRun(cfg, acts) && ReadingsAreFresh(cfg, acts, cleaner, key)
    ensures PhaseUpToDate(cfg.w, Exec(cfg, acts).unknown, PhaseOf(Exec(cfg, acts), cleaner), key)
  {
    if acts != [] {
      AlwaysUpToDate(cfg, Front(acts), cleaner, key);
      StepKeepsUpToDate(cfg, Exec(cfg, Front(acts)), Last(acts), cleaner, key);
    }
  }

  /** The delete that `cleaner` is about to try takes away a counter whose record Redis has acknowledged. */
  predicate DeletesRecorded(cfg: Config, s: State, cleaner: nat) {
    && Enabled(cfg, s, Conclude(cleaner))
    && var p := PhaseOf(s, cleaner);
      && p.Upserted? && p.acked.Some?
      && p.todo[0].key in s.unknown && p.todo[0].key !in Step(cfg, s, Conclude(cleaner)).unknown
  }

  /** That record has exactly the fields of the counter. */
  predicate RecordIsFinal(s: State, cleaner: nat) {
    var p := PhaseOf(s, cleaner);
    && p.Upserted? && p.acked.Some? && p.todo != [] && p.todo[0].key in s.unknown
    && p.acked.value == RecordOf(s.unknown[p.todo[0].key])
  }

  /** Whatever interleaves, however many cleanup runs there are: a counter that is deleted after an acknowledged
      upsert had exactly the fields that the upsert wrote. */
  lemma NoUpdateIsLost(cfg: Config, acts: seq<Action>, cleaner: nat)
    requires ValidRun(cfg, acts) && DeletesRecorded(cfg, Exec(cfg, acts), cleaner)
    requires ReadingsAreFresh(cfg, acts, cleaner, PhaseOf(Exec(cfg, acts), cleaner).todo[0].key)
    ensures RecordIsFinal(Exec(cfg, acts), cleaner)
  {
    AlwaysUpToDate(cfg, acts, cleaner, PhaseOf(Exec(cfg, acts), cleaner).todo[0].key);
  }

  /** Two windows is the exact margin: a request that slips in before the delete goes with the counter just
      when its reading is two windows or more behind the start of the run. */
  lemma MarginIsExact(w: Seconds, c: Counter, r: Request, start: nat)
    requires Consistent(w, c)
    ensures Apply(w, Apply(w, Some(c), Ask(r)), Collect(start)).None? <==> r.now + 2 * WindowLength(w) <= start
  {
    ApplyConsistent(w, Some(c), Ask(r));
    IdleIsInactive(w, Record(w, Some(c), r), start);
  }

  // ---- Overlapping runs ----

  ghost predicate AllIdle(s: State) {
    forall c :: c in s.cleaners ==> s.cleaners[c].Idle?
  }

  /** A run has started beside another one, and there has been no moment without a run since. */
  ghost predicate InOverlap(cfg: Config, acts: seq<Action>)
    requires ValidRun(cfg, acts)
  {
    acts != [] && (
      || (Last(acts).StartRun? && !AllIdle(Exec(cfg, Front(acts))))
      || (InOverlap(cfg, Front(acts)) && !AllIdle(Exec(cfg, acts))))
  }

  /** No request is applied during an overlap. */
  ghost predicate Drained(cfg: Config, acts: seq<Action>)
    requires ValidRun(cfg, acts)
  {
    acts == [] || (
      && Drained(cfg, Front(acts))
      && (Last(acts).ApplyRequest? ==> !InOverlap(cfg, Front(acts))))
  }

  /** A run starts only when no other is in flight. */
  ghost predicate Solo(cfg: Config, acts: seq<Action>)
    requires ValidRun(cfg, acts)
  {
    acts == [] || (
      && Solo(cfg, Front(acts))
      && (Last(acts).StartRun? ==> AllIdle(Exec(cfg, Front(acts)))))
  }

  lemma {:induction false} SoloIsDrained(cfg: Config, acts: seq<Action>)
    requires ValidRun(cfg, acts) && Solo(cfg, acts)
    ensures !InOverlap(cfg, acts) && Drained(cfg, acts)
  {
    if acts != [] {
      SoloIsDrained(cfg, Front(acts));
    }
  }

  // ---- Without overlap, decisions taken on the snapshot stay valid ----

  ghost predicate OneActive(s: State) {
    forall c, d :: c in s.cleaners && d in s.cleaners && !s.cleaners[c].Idle? && !s.cleaners[d].Idle? ==> c == d
  }

  /** The same counter, later. */
  predicate Grown(a: Counter, b: Counter) {
    a.firstRequest == b.firstRequest && a.total <= b.total && a.burstHits <= b.burstHits && a.hits <= b.hits
  }

  predicate StillValid(m: CounterMap, todo: seq<Snapshot>) {
    && (forall i, j :: 0 <= i < j < |todo| ==> todo[i].key != todo[j].key)
    && forall i :: 0 <= i < |todo| ==> todo[i].key in m && Grown(todo[i].counter, m[todo[i].key])
  }

  ghost predicate PhaseSteady(s: State, p: Phase) {
    && p.WellFormed()
    && (p.OnUnknown() ==> StillValid(s.unknown, p.todo))
    && (p.Upserted? && p.acked.Some? ==>
      var place := Place(p.todo[0].key);
      place.Some? && place.value in s.records && s.records[place.value] == p.acked.value)
  }

  ghost predicate Steady(s: State) {
    OneActive(s) && forall c :: c in s.cleaners ==> PhaseSteady(s, s.cleaners[c])
  }

  lemma RequestKeepsValid(cfg: Config, s: State, a: Action, todo: seq<Snapshot>)
    requires Enabled(cfg, s, a) && !a.Conclude? && StillValid(s.unknown, todo)
    ensures StillValid(Step(cfg, s, a).unknown, todo)
  {
  }

  lemma ConcludeKeepsValid(cfg: Config, s: State, c: nat)
    requires Enabled(cfg, s, Conclude(c)) && StillValid(s.unknown, PhaseOf(s, c).todo)
    ensures StillValid(Step(cfg, s, Conclude(c)).unknown, PhaseOf(s, c).todo[1..])
  {
    var todo := PhaseOf(s, c).todo;
    forall i | 0 <= i < |todo[1..]|
      ensures todo[1..][i].key in Step(cfg, s, Conclude(c)).unknown
      ensures Grown(todo[1..][i].counter, Step(cfg, s, Conclude(c)).unknown[todo[1..][i].key])
    {
      assert todo[1..][i] == todo[i + 1] && todo[0].key != todo[i + 1].key;
    }
  }

  /** The acting run's own next phase. */
  lemma ActorStaysSteady(cfg: Config, s: State, a: Action)
    requires Enabled(cfg, s, a) && a.ByCleaner() && Steady(s)
    ensures PhaseSteady(Step(cfg, s, a), PhaseAfter(cfg, s, a))
  {
    var p := PhaseOf(s, a.cleaner);
    assert PhaseSteady(s, p);
    match a
    case Conclude(c) => ConcludeKeepsValid(cfg, s, c);
    case ReRead(c) =>
    case SnapshotUnknown(_, _, _) =>
    case SendUpsert(_, _) =>
    case StartRun(_) =>
    case SnapshotKnown(_, _) =>
    case CheckKnown(_, _) =>
    case FinishRun(_) =>
  }

  lemma StepKeepsSteady(cfg: Config, s: State, a: Action)
    requires Enabled(cfg, s, a) && Steady(s) && (a.StartRun? ==> AllIdle(s))
    ensures Steady(Step(cfg, s, a))
  {
    var t := Step(cfg, s, a);
    forall c | c in t.cleaners ensures PhaseSteady(t, t.cleaners[c]) {
      if a.ByCleaner() && c == a.cleaner {
        ActorStaysSteady(cfg, s, a);
      } else if a.ByCleaner() {
        assert t.cleaners[c].Idle?;
      } else if t.cleaners[c].OnUnknown() {
        RequestKeepsValid(cfg, s, a, t.cleaners[c].todo);
      }
    }
  }

  lemma {:induction false} SteadyOutsideOverlaps(cfg: Config, acts: seq<Action>)
    requires ValidRun(cfg, acts) && !InOverlap(cfg, acts)
    ensures Steady(Exec(cfg, acts))
  {
    if acts != [] && !InOverlap(cfg, Front(acts)) {
      SteadyOutsideOverlaps(cfg, Front(acts));
      StepKeepsSteady(cfg, Exec(cfg, Front(acts)), Last(acts));
    }
  }

  /** A snapshotted counter over the threshold is still there when it is re-read, as the same counter, grown. */
  lemma SnapshotStaysValid(cfg: Config, acts: seq<Action>, cleaner: nat)
    requires ValidRun(cfg, acts) && !InOverlap(cfg, acts)
    requires Enabled(cfg, Exec(cfg, acts), ReRead(cleaner))
    ensures var s := Exec(cfg, acts);
      var snap := PhaseOf(s, cleaner).todo[0];
      && snap.key in s.unknown
      && Grown(snap.counter, s.unknown[snap.key])
      && s.unknown[snap.key].hits >= cfg.threshold
  {
    SteadyOutsideOverlaps(cfg, acts);
    assert PhaseSteady(Exec(cfg, acts), PhaseOf(Exec(cfg, acts), cleaner));
  }

  /** A counter deleted after its upsert lives on in Redis, field by field. Records change by upserts alone here:
      an administrator's delete and the expiry of a record are not in the state. */
  lemma DeletedAbuserIsOnRecord(cfg: Config, acts: seq<Action>, cleaner: nat)
    requires ValidRun(cfg, acts) && !InOverlap(cfg, acts) && Enabled(cfg, Exec(cfg, acts), Conclude(cleaner))
    requires var p := PhaseOf(Exec(cfg, acts), cleaner);
      && p.Upserted? && p.acked.Some?
      && p.todo[0].key !in Step(cfg, Exec(cfg, acts), Conclude(cleaner)).unknown
    requires ReadingsAreFresh(cfg, acts, cleaner, PhaseOf(Exec(cfg, acts), cleaner).todo[0].key)
    ensures var s := Exec(cfg, acts);
      var key := PhaseOf(s, cleaner).todo[0].key;
      && key in s.unknown && Place(key).Some? && Place(key).value in s.records
      && var c := s.unknown[key];
      Step(cfg, s, Conclude(cleaner)).records[Place(key).value] ==
        AbuseRecord(Unix(c.firstRequest), Unix(c.lastRequest), c.total, c.burstHits, c.hits)
  {
    SteadyOutsideOverlaps(cfg, acts);
    var s := Exec(cfg, acts);
    assert PhaseSteady(s, PhaseOf(s, cleaner));
    NoUpdateIsLost(cfg, acts, cleaner);
  }

  // ---- Evidence goes into the records ----

  predicate CarriesEvidence(cfg: Config, r: AbuseRecord)
    requires cfg.Sound()
  {
    r.abuseHits * (cfg.Line() + 1) + 1 <= r.totalRequests
  }

  ghost predicate Evident(cfg: Config, s: State)
    requires cfg.Sound()
  {
    && (forall c :: c in s.cleaners && s.cleaners[c].Fetched? ==> CarriesEvidence(cfg, RecordOf(s.cleaners[c].live)))
    && forall l :: l in s.records ==> CarriesEvidence(cfg, s.records[l])
  }

  /** Every record carries the requests that its charges stand for, whatever overlaps. */
  lemma {:induction false} RecordsCarryEvidence(cfg: Config, acts: seq<Action>)
    requires cfg.Sound() && ValidRun(cfg, acts)
    ensures Evident(cfg, Exec(cfg, acts))
  {
    if acts != [] {
      hide CarriesEvidence;
      var s, a := Exec(cfg, Front(acts)), Last(acts);
      RecordsCarryEvidence(cfg, Front(acts));
      if a.ReRead? && PhaseOf(s, a.cleaner).todo[0].key in s.unknown {
        LiveCarriesEvidence(cfg, Front(acts), PhaseOf(s, a.cleaner).todo[0].key);
      }
    }
  }

  lemma LiveCarriesEvidence(cfg: Config, acts: seq<Action>, key: string)
    requires cfg.Sound() && ValidRun(cfg, acts) && key in Exec(cfg, acts).unknown
    ensures CarriesEvidence(cfg, RecordOf(Exec(cfg, acts).unknown[key]))
  {
    CountersAreSound(cfg, acts, UnknownSide, key);
    var c := Exec(cfg, acts).unknown[key];
    History.HitsNeedRequests(c, cfg.Line(), c.hits);
  }

  // ---- Records over the threshold ----

  /** A counter that was snapshotted and is still in memory has not lost anything. */
  predicate NoneReborn(m: CounterMap, todo: seq<Snapshot>) {
    forall i :: 0 <= i < |todo| && todo[i].key in m ==> Grown(todo[i].counter, m[todo[i].key])
  }

  ghost predicate PhaseOver(cfg: Config, s: State, p: Phase) {
    && p.WellFormed()
    && (p.OnUnknown() ==> NoneReborn(s.unknown, p.todo))
    && (p.Fetched? ==> p.live.hits >= cfg.threshold)
  }

  ghost predicate AllOver(cfg: Config, s: State) {
    && (forall c :: c in s.cleaners ==> PhaseOver(cfg, s, s.cleaners[c]))
    && forall l :: l in s.records ==> s.records[l].abuseHits >= cfg.threshold
  }

  lemma ActorStaysOver(cfg: Config, s: State, a: Action)
    requires Enabled(cfg, s, a) && a.ByCleaner() && PhaseOver(cfg, s, PhaseOf(s, a.cleaner))
    ensures PhaseOver(cfg, Step(cfg, s, a), PhaseAfter(cfg, s, a))
  {
  }

  lemma OthersStayOver(cfg: Config, s: State, a: Action, p: Phase)
    requires Enabled(cfg, s, a) && PhaseOver(cfg, s, p)
    requires a.ApplyRequest? && p.OnUnknown() ==> StillValid(s.unknown, p.todo)
    ensures PhaseOver(cfg, Step(cfg, s, a), p)
  {
    if a.ApplyRequest? && p.OnUnknown() {
      RequestKeepsValid(cfg, s, a, p.todo);
    }
  }

  lemma StepKeepsOver(cfg: Config, s: State, a: Action)
    requires Enabled(cfg, s, a) && AllOver(cfg, s) && (a.ApplyRequest? ==> Steady(s))
    ensures AllOver(cfg, Step(cfg, s, a))
  {
    var t := Step(cfg, s, a);
    forall c | c in t.cleaners ensures PhaseOver(cfg, t, t.cleaners[c]) {
      if a.ByCleaner() && c == a.cleaner {
        ActorStaysOver(cfg, s, a);
      } else {
        OthersStayOver(cfg, s, a, s.cleaners[c]);
      }
    }
  }

  lemma {:induction false} AlwaysOver(cfg: Config, acts: seq<Action>)
    requires ValidRun(cfg, acts) && Drained(cfg, acts)
    ensures AllOver(cfg, Exec(cfg, acts))
  {
    if acts != [] {
      AlwaysOver(cfg, Front(acts));
      if Last(acts).ApplyRequest? {
        SteadyOutsideOverlaps(cfg, Front(acts));
      }
      StepKeepsOver(cfg, Exec(cfg, Front(acts)), Last(acts));
    }
  }

  /** A record that is evidence enough. */
  predicate MeetsThreshold(cfg: Config, r: AbuseRecord)
    requires cfg.Sound()
  {
    r.abuseHits >= cfg.threshold && r.totalRequests >= cfg.threshold * (cfg.Line() + 1) + 1
  }

  ghost predicate AllBacked(cfg: Config, s: State)
    requires cfg.Sound()
  {
    forall l :: l in s.records ==> MeetsThreshold(cfg, s.records[l])
  }

  lemma EvidenceMeetsThreshold(cfg: Config, r: AbuseRecord)
    requires cfg.Sound() && CarriesEvidence(cfg, r) && r.abuseHits >= cfg.threshold
    ensures MeetsThreshold(cfg, r)
  {
    var n := cfg.Line() + 1;
    assert r.abuseHits * n == cfg.threshold * n + (r.abuseHits - cfg.threshold) * n;
  }

  /** Runs may overlap as long as no request comes in between: every abuse record in Redis carries at least the
      threshold of charges, and the requests to back them. */
  lemma RecordsAreBacked(cfg: Config, acts: seq<Action>)
    requires cfg.Sound() && ValidRun(cfg, acts) && Drained(cfg, acts)
    ensures AllBacked(cfg, Exec(cfg, acts))
  {
    AlwaysOver(cfg, acts);
    RecordsCarryEvidence(cfg, acts);
    forall l | l in Exec(cfg, acts).records ensures MeetsThreshold(cfg, Exec(cfg, acts).records[l]) {
      EvidenceMeetsThreshold(cfg, Exec(cfg, acts).records[l]);
    }
  }
}
