/** What overlapping runs can do to the records, and the exact condition under which they are still backed.

    Shutdown starts a final run while the loop's own run may be in flight. It first waits for the requests in
    flight, but no longer than its timeout. If a handler outlives that, a record under the threshold can go to
    Redis, under every configuration. */
module Overlap {
  import opened Clock
  import opened Counters
  import opened AbuseStore
  import opened Protocol
  import opened Safety
  import opened Transfers
  import opened Scenarios

  /** With two runs in flight and a request between them, every configuration with a threshold reaches a record
      without a single charge: the first run deletes the counter, the request brings it back empty, and the second
      run transfers it on the strength of its snapshot. No request has to wait for that. */
  lemma OverlapWritesUnderThreshold(cfg: Config) returns (acts: seq<Action>, l: Location)
    requires cfg.Sound() && 0 < cfg.threshold
    ensures ValidRun(cfg, acts) && WithinLag(cfg, acts, 0)
    ensures l in Exec(cfg, acts).records && Exec(cfg, acts).records[l].abuseHits == 0
  {
    hide Reached;
    var s, es := MakeAbuser(cfg, 0, cfg.threshold);
    var c := s.unknown[KEY];
    assert s.unknown == map[KEY := c];
    s := Wait(cfg, 0, s, es, 2 * WindowLength(cfg.w));
    LaterSlot(c.lastRequest, s.clock, 2, cfg.w);
    s := TakeSnapshot(cfg, 0, s, es, 1, true, c);
    s := TakeSnapshot(cfg, 0, s, es, 2, true, c);
    s := WriteRecord(cfg, 0, s, es, 1, c, c);
    Go(cfg, 0, s, es, Conclude(1));
    es := es + [Collect(s.clock)];
    s := Step(cfg, s, Conclude(1));
    assert s.unknown == map[];
    var clock := s.clock;
    s := AskOnce(cfg, 0, s, es);
    es := es + [Ask(ClientRequest(cfg, clock))];
    var reborn := s.unknown[KEY];
    assert reborn.hits == 0 && s.unknown == map[KEY := reborn];
    s := WriteRecord(cfg, 0, s, es, 2, c, reborn);
    l := Place(KEY).value;
    acts := RunOf(cfg, 0, s, es);
  }

  // ---- The exact condition ----

  /** How a service is run: whether cleanup runs may overlap, and whether requests are held back while they do. */
  datatype Regime = Regime(overlaps: bool, drains: bool)

  ghost predicate Obeys(cfg: Config, acts: seq<Action>, r: Regime)
    requires ValidRun(cfg, acts)
  {
    (!r.overlaps ==> Solo(cfg, acts)) && (r.drains ==> Drained(cfg, acts))
  }

  /** In every run under the regime all records meet the threshold. */
  ghost predicate KeepsBacked(cfg: Config, r: Regime)
    requires cfg.Sound()
  {
    forall acts :: ValidRun(cfg, acts) && Obeys(cfg, acts, r) ==> AllBacked(cfg, Exec(cfg, acts))
  }

  /** Records stay backed just when runs never overlap, or requests are held back while they do, or there is no
      threshold to miss. */
  lemma BackedIff(cfg: Config, r: Regime)
    requires cfg.Sound()
    ensures KeepsBacked(cfg, r) <==> !r.overlaps || r.drains || cfg.threshold == 0
  {
    if !r.overlaps || r.drains || cfg.threshold == 0 {
      forall acts | ValidRun(cfg, acts) && Obeys(cfg, acts, r) ensures AllBacked(cfg, Exec(cfg, acts)) {
        if cfg.threshold == 0 {
          NoThresholdToMiss(cfg, acts);
        } else {
          if !r.overlaps {
            SoloIsDrained(cfg, acts);
          }
          RecordsAreBacked(cfg, acts);
        }
      }
    } else {
      var acts, l := OverlapWritesUnderThreshold(cfg);
      assert Obeys(cfg, acts, r) && !MeetsThreshold(cfg, Exec(cfg, acts).records[l]);
    }
  }

  lemma NoThresholdToMiss(cfg: Config, acts: seq<Action>)
    requires cfg.Sound() && cfg.threshold == 0 && ValidRun(cfg, acts)
    ensures AllBacked(cfg, Exec(cfg, acts))
  {
    RecordsCarryEvidence(cfg, acts);
    forall l | l in Exec(cfg, acts).records ensures MeetsThreshold(cfg, Exec(cfg, acts).records[l]) {
      EvidenceMeetsThreshold(cfg, Exec(cfg, acts).records[l]);
    }
  }
}
