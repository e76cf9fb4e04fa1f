/** The fields of a counter as closed forms of the requests that made it.

    A history under one policy is cut into its runs: maximal stretches of requests in one slot. */
module History {
  import opened Clock
  import opened Wrappers
  import opened Counters

  function Asks(p: Policy, ts: seq<nat>): (es: seq<Event>)
    ensures |es| == |ts|
  {
    seq(|ts|, i requires 0 <= i < |ts| => Ask(Request(ts[i], p)))
  }

  function Final(w: Seconds, p: Policy, ts: seq<nat>): Option<Counter> {
    Replay(w, Asks(p, ts))
  }

  lemma FinalStep(w: Seconds, p: Policy, ts: seq<nat>, t: nat)
    ensures Final(w, p, ts + [t]) == Some(Record(w, Final(w, p, ts), Request(t, p)))
  {
    assert Asks(p, ts + [t])[..|ts|] == Asks(p, ts);
  }

  function Flatten(rs: seq<seq<nat>>): seq<nat> {
    if rs == [] then [] else Flatten(rs[..|rs| - 1]) + rs[|rs| - 1]
  }

  predicate OneSlot(w: Seconds, r: seq<nat>) {
    && r != []
    && forall i :: 0 <= i < |r| ==> SlotOf(r[i], w) == SlotOf(r[0], w)
  }

  /** `rs` are the runs of `Flatten(rs)`: each in one slot, neighbours in different slots. */
  predicate AreRuns(w: Seconds, rs: seq<seq<nat>>) {
    && (forall i :: 0 <= i < |rs| ==> OneSlot(w, rs[i]))
    && forall i, j :: 0 <= i < |rs| && 0 <= j < |rs| && j == i + 1 ==> SlotOf(rs[i][0], w) != SlotOf(rs[j][0], w)
  }

  function Clamp(n: int, lo: int, hi: int): int {
    if n < lo then lo else if hi < n then hi else n
  }

  /** Burst requests over all runs. */
  function BurstOf(p: Policy, rs: seq<seq<nat>>): int {
    if rs == [] then 0 else BurstOf(p, rs[..|rs| - 1]) + Clamp(|rs[|rs| - 1]| - p.limit, 0, p.burst)
  }

  /** Runs that are longer than the line. */
  function OverOf(p: Policy, rs: seq<seq<nat>>): nat {
    if rs == [] then 0 else OverOf(p, rs[..|rs| - 1]) + if |rs[|rs| - 1]| > p.line then 1 else 0
  }

  /** The closed form of the whole counter. */
  predicate ClosedForm(w: Seconds, p: Policy, rs: seq<seq<nat>>, c: Counter)
    requires AreRuns(w, rs) && rs != []
  {
    var last := rs[|rs| - 1];
    && c.firstRequest == rs[0][0]
    && c.lastRequest == last[|last| - 1]
    && c.total == |Flatten(rs)|
    && c.windowCount == |last|
    && c.slot == SlotOf(last[0], w)
    && c.burstHits == BurstOf(p, rs)
    && OverOf(p, rs) == c.hits + if |last| > p.line then 1 else 0
  }

  lemma FlattenAppend(rs: seq<seq<nat>>, r: seq<nat>)
    ensures Flatten(rs + [r]) == Flatten(rs) + r
  {
  }

  lemma AppendRun(w: Seconds, rs: seq<seq<nat>>, t: nat)
    requires AreRuns(w, rs) && (rs != [] ==> SlotOf(rs[|rs| - 1][0], w) != SlotOf(t, w))
    ensures AreRuns(w, rs + [[t]])
  {
  }

  lemma ExtendRun(w: Seconds, rs: seq<seq<nat>>, n: nat, t: nat)
    requires AreRuns(w, rs) && n + 1 == |rs| && SlotOf(rs[n][0], w) == SlotOf(t, w)
    ensures AreRuns(w, rs[..n] + [rs[n] + [t]])
  {
  }

  function AddToRuns(w: Seconds, rs: seq<seq<nat>>, t: nat): (longer: seq<seq<nat>>)
    requires AreRuns(w, rs)
    ensures AreRuns(w, longer) && Flatten(longer) == Flatten(rs) + [t] && longer != []
  {
    var n := |rs| - 1;
    if rs == [] || SlotOf(rs[n][0], w) != SlotOf(t, w) then
      AppendRun(w, rs, t);
      FlattenAppend(rs, [t]);
      rs + [[t]]
    else
      ExtendRun(w, rs, n, t);
      FlattenAppend(rs[..n], rs[n] + [t]);
      rs[..n] + [rs[n] + [t]]
  }

  /** Every history has such a decomposition. */
  function Runs(w: Seconds, ts: seq<nat>): (rs: seq<seq<nat>>)
    ensures AreRuns(w, rs) && Flatten(rs) == ts
    ensures ts != [] ==> rs != []
  {
    if ts == [] then [] else AddToRuns(w, Runs(w, ts[..|ts| - 1]), ts[|ts| - 1])
  }

  /** The runs without the last request of a last run that has more than one. */
  function Shorter(rs: seq<seq<nat>>): (shorter: seq<seq<nat>>)
    requires rs != [] && |rs[|rs| - 1]| > 1
    ensures |shorter| == |rs|
    ensures forall i :: 0 <= i < |rs| - 1 ==> shorter[i] == rs[i]
    ensures shorter[|rs| - 1] == rs[|rs| - 1][..|rs[|rs| - 1]| - 1]
    ensures shorter[..|rs| - 1] == rs[..|rs| - 1]
  {
    rs[..|rs| - 1] + [rs[|rs| - 1][..|rs[|rs| - 1]| - 1]]
  }

  lemma ShorterRuns(w: Seconds, rs: seq<seq<nat>>)
    requires AreRuns(w, rs) && rs != [] && |rs[|rs| - 1]| > 1
    ensures AreRuns(w, Shorter(rs))
    ensures Flatten(rs) == Flatten(Shorter(rs)) + [rs[|rs| - 1][|rs[|rs| - 1]| - 1]]
  {
  }

  lemma NewRun(w: Seconds, p: Policy, rs: seq<seq<nat>>, c: Counter)
    requires p.Sound() && AreRuns(w, rs) && |rs| > 1 && |rs[|rs| - 1]| == 1
    requires ClosedForm(w, p, rs[..|rs| - 1], c)
    ensures ClosedForm(w, p, rs, Record(w, Some(c), Request(rs[|rs| - 1][0], p)))
  {
  }

  lemma LongerRun(w: Seconds, p: Policy, rs: seq<seq<nat>>, c: Counter)
    requires p.Sound() && AreRuns(w, rs) && rs != [] && |rs[|rs| - 1]| > 1 && AreRuns(w, Shorter(rs))
    requires ClosedForm(w, p, Shorter(rs), c)
    requires |Flatten(rs)| == |Flatten(Shorter(rs))| + 1
    ensures ClosedForm(w, p, rs, Record(w, Some(c), Request(rs[|rs| - 1][|rs[|rs| - 1]| - 1], p)))
  {
  }

  /** The counter of a nonempty history, for any decomposition into runs. */
  lemma {:induction false} ClosedForms(w: Seconds, p: Policy, rs: seq<seq<nat>>)
    requires p.Sound() && AreRuns(w, rs) && rs != []
    ensures Final(w, p, Flatten(rs)).Some?
    ensures ClosedForm(w, p, rs, Final(w, p, Flatten(rs)).value)
    decreases |Flatten(rs)|
  {
    var n := |rs| - 1;
    var last := rs[n];
    if |last| > 1 {
      ShorterRuns(w, rs);
      ClosedForms(w, p, Shorter(rs));
      FinalStep(w, p, Flatten(Shorter(rs)), last[|last| - 1]);
      LongerRun(w, p, rs, Final(w, p, Flatten(Shorter(rs))).value);
    } else {
      assert last == [last[0]];
      FinalStep(w, p, Flatten(rs[..n]), last[0]);
      if n > 0 {
        ClosedForms(w, p, rs[..n]);
        NewRun(w, p, rs, Final(w, p, Flatten(rs[..n])).value);
      } else {
        assert rs[..0] == [];
      }
    }
  }

  /** Position of the first request of run `j`. */
  function Start(rs: seq<seq<nat>>, j: nat): nat
    requires j <= |rs|
  {
    |Flatten(rs[..j])|
  }

  lemma {:induction false} FlattenPrefix(rs: seq<seq<nat>>, j: nat, k: nat)
    requires j < |rs| && k <= |rs[j]|
    ensures Start(rs, j) + k <= |Flatten(rs)|
    ensures Flatten(rs)[..Start(rs, j) + k] == Flatten(rs[..j]) + rs[j][..k]
    ensures k < |rs[j]| ==> Start(rs, j) + k < |Flatten(rs)| && Flatten(rs)[Start(rs, j) + k] == rs[j][k]
  {
    if j < |rs| - 1 {
      var front := rs[..|rs| - 1];
      assert front[..j] == rs[..j];
      FlattenPrefix(front, j, k);
    }
  }

  /** The runs up to, and not including, request `k` of run `j`. */
  function RunsBefore(rs: seq<seq<nat>>, j: nat, k: nat): seq<seq<nat>>
    requires j < |rs| && k <= |rs[j]|
  {
    if k > 0 then rs[..j] + [rs[j][..k]] else rs[..j]
  }

  lemma RunsBeforeAreRuns(w: Seconds, rs: seq<seq<nat>>, j: nat, k: nat)
    requires AreRuns(w, rs) && j < |rs| && k <= |rs[j]|
    ensures AreRuns(w, RunsBefore(rs, j, k))
  {
  }

  lemma FlattenBefore(rs: seq<seq<nat>>, j: nat, k: nat)
    requires j < |rs| && k <= |rs[j]|
    ensures Start(rs, j) + k <= |Flatten(rs)|
    ensures Flatten(RunsBefore(rs, j, k)) == Flatten(rs)[..Start(rs, j) + k]
  {
    FlattenPrefix(rs, j, k);
    if k > 0 {
      assert RunsBefore(rs, j, k)[..j] == rs[..j];
    } else {
      assert Flatten(rs[..j]) + rs[j][..0] == Flatten(rs[..j]);
    }
  }

  /** The number under which the next request is judged. */
  function NextNumber(w: Seconds, rs: seq<seq<nat>>, t: nat): nat
    requires AreRuns(w, rs)
  {
    if rs != [] && SlotOf(rs[|rs| - 1][0], w) == SlotOf(t, w) then |rs[|rs| - 1]| + 1 else 1
  }

  lemma NextVerdict(w: Seconds, p: Policy, rs: seq<seq<nat>>, t: nat)
    requires p.Sound() && AreRuns(w, rs)
    ensures Verdict(w, Final(w, p, Flatten(rs)), Request(t, p)) == Judge(NextNumber(w, rs, t), p)
  {
    if rs != [] {
      ClosedForms(w, p, rs);
    }
  }

  lemma NumberInRun(w: Seconds, rs: seq<seq<nat>>, j: nat, k: nat)
    requires AreRuns(w, rs) && j < |rs| && k < |rs[j]|
    requires AreRuns(w, RunsBefore(rs, j, k))
    ensures NextNumber(w, RunsBefore(rs, j, k), rs[j][k]) == k + 1
  {
  }

  /** The `k`-th request of any run is judged as number `k + 1` of its slot. */
  lemma DecisionInRun(w: Seconds, p: Policy, rs: seq<seq<nat>>, j: nat, k: nat)
    requires p.Sound() && AreRuns(w, rs) && j < |rs| && k < |rs[j]|
    ensures Start(rs, j) + k < |Flatten(rs)|
    ensures VerdictAt(w, Asks(p, Flatten(rs)), Start(rs, j) + k) == Judge(k + 1, p)
  {
    var before := RunsBefore(rs, j, k);
    FlattenPrefix(rs, j, k);
    FlattenBefore(rs, j, k);
    RunsBeforeAreRuns(w, rs, j, k);
    NumberInRun(w, rs, j, k);
    NextVerdict(w, p, before, rs[j][k]);
    assert Asks(p, Flatten(rs))[..Start(rs, j) + k] == Asks(p, Flatten(before));
  }

  /** How many of the requests at positions `lo` up to `hi` are blocked. */
  function Blocked(w: Seconds, p: Policy, ts: seq<nat>, lo: nat, hi: nat): nat
    requires lo <= hi <= |ts|
  {
    if lo == hi then 0
    else Blocked(w, p, ts, lo, hi - 1) + if VerdictAt(w, Asks(p, ts), hi - 1).allowed then 0 else 1
  }

  /** The `k` requests from position `lo` on are judged as numbers one to `k`. */
  predicate Numbered(w: Seconds, p: Policy, ts: seq<nat>, lo: nat, k: nat) {
    && lo + k <= |ts|
    && forall i :: lo <= i < lo + k ==> VerdictAt(w, Asks(p, ts), i) == Judge(i - lo + 1, p)
  }

  lemma {:induction false} BlockedByNumber(w: Seconds, p: Policy, ts: seq<nat>, lo: nat, k: nat)
    requires p.Sound() && Numbered(w, p, ts, lo, k)
    ensures Blocked(w, p, ts, lo, lo + k) == if k > p.Cap() then k - p.Cap() else 0
  {
    if k > 0 {
      BlockedByNumber(w, p, ts, lo, k - 1);
    }
  }

  lemma RunIsNumbered(w: Seconds, p: Policy, rs: seq<seq<nat>>, j: nat)
    requires p.Sound() && AreRuns(w, rs) && j < |rs|
    ensures Numbered(w, p, Flatten(rs), Start(rs, j), |rs[j]|)
  {
    var ts, lo := Flatten(rs), Start(rs, j);
    FlattenPrefix(rs, j, |rs[j]|);
    forall i | lo <= i < lo + |rs[j]|
      ensures VerdictAt(w, Asks(p, ts), i) == Judge(i - lo + 1, p)
    {
      DecisionInRun(w, p, rs, j, i - lo);
    }
  }

  /** In each run exactly the requests beyond the cap are blocked. */
  lemma BlockedInRun(w: Seconds, p: Policy, rs: seq<seq<nat>>, j: nat)
    requires p.Sound() && AreRuns(w, rs) && j < |rs|
    ensures Start(rs, j) + |rs[j]| <= |Flatten(rs)|
    ensures Blocked(w, p, Flatten(rs), Start(rs, j), Start(rs, j) + |rs[j]|)
      == if |rs[j]| > p.Cap() then |rs[j]| - p.Cap() else 0
  {
    RunIsNumbered(w, p, rs, j);
    BlockedByNumber(w, p, Flatten(rs), Start(rs, j), |rs[j]|);
  }

  /** Run `j` is over (a later request closed its slot) and was charged to `hits`. */
  predicate Charged(p: Policy, rs: seq<seq<nat>>, j: nat) {
    j + 1 < |rs| && |rs[j]| > p.line
  }

  /** A run is charged exactly when `hits` grows with the first request after it. */
  lemma ChargedIsCounted(w: Seconds, p: Policy, rs: seq<seq<nat>>, j: nat)
    requires p.Sound() && AreRuns(w, rs) && j + 1 < |rs|
    ensures var ts := Flatten(rs[..j + 1]);
      && Final(w, p, ts).Some?
      && Final(w, p, ts + [rs[j + 1][0]]).Some?
      && (Charged(p, rs, j) <==> Final(w, p, ts + [rs[j + 1][0]]).value.hits == Final(w, p, ts).value.hits + 1)
      && (!Charged(p, rs, j) <==> Final(w, p, ts + [rs[j + 1][0]]).value.hits == Final(w, p, ts).value.hits)
  {
    var done := rs[..j + 1];
    assert done[..j] == rs[..j] && done[j] == rs[j];
    ClosedForms(w, p, done);
    FinalStep(w, p, Flatten(done), rs[j + 1][0]);
    assert SlotOf(rs[j][0], w) != SlotOf(rs[j + 1][0], w);
  }

  /** Every charged slot also saw a blocked request. */
  ghost predicate AbuseImpliesBlocking(w: Seconds, p: Policy)
    requires p.Sound()
  {
    forall rs: seq<seq<nat>>, j: nat :: AreRuns(w, rs) && Charged(p, rs, j) ==> RunIsBlocked(w, p, rs, j)
  }

  ghost predicate RunIsBlocked(w: Seconds, p: Policy, rs: seq<seq<nat>>, j: nat)
    requires p.Sound() && AreRuns(w, rs) && j < |rs|
  {
    BlockedInRun(w, p, rs, j);
    Blocked(w, p, Flatten(rs), Start(rs, j), Start(rs, j) + |rs[j]|) >= 1
  }

  /** With the cap at or under the line, a charged slot has at least `line + 1 - cap` blocked requests. */
  lemma ChargedRunBlocks(w: Seconds, p: Policy, rs: seq<seq<nat>>, j: nat)
    requires p.Sound() && AreRuns(w, rs) && Charged(p, rs, j)
    requires p.Cap() <= p.line
    ensures Start(rs, j) + |rs[j]| <= |Flatten(rs)|
    ensures Blocked(w, p, Flatten(rs), Start(rs, j), Start(rs, j) + |rs[j]|) >= p.line + 1 - p.Cap()
  {
    BlockedInRun(w, p, rs, j);
  }

  /** The exact condition: abuse implies blocking just when the cap does not exceed the line. */
  lemma AbuseImpliesBlockingIff(w: Seconds, p: Policy)
    requires p.Sound()
    ensures AbuseImpliesBlocking(w, p) <==> p.Cap() <= p.line
  {
    if p.Cap() <= p.line {
      forall rs: seq<seq<nat>>, j: nat | AreRuns(w, rs) && Charged(p, rs, j)
        ensures RunIsBlocked(w, p, rs, j)
      {
        ChargedRunBlocks(w, p, rs, j);
      }
    } else {
      var rs := UnblockedAbuse(w, p);
      assert !RunIsBlocked(w, p, rs, 0);
    }
  }

  /** A history that is charged although every request is allowed: `line + 1` requests at time zero. */
  lemma UnblockedAbuse(w: Seconds, p: Policy) returns (rs: seq<seq<nat>>)
    requires p.Sound() && p.line < p.Cap()
    ensures rs == [seq(p.line + 1, _ => 0), [WindowLength(w)]]
    ensures AreRuns(w, rs) && Charged(p, rs, 0)
    ensures !RunIsBlocked(w, p, rs, 0)
  {
    rs := [seq(p.line + 1, _ => 0), [WindowLength(w)]];
    SlotIs(0, w, 0);
    SlotIs(WindowLength(w), w, 1);
    BlockedInRun(w, p, rs, 0);
  }

  /** All requests of the history draw the same line. */
  predicate SameLine(es: seq<Event>, line: nat) {
    forall i :: 0 <= i < |es| && es[i].Ask? ==> es[i].request.policy.line == line
  }

  predicate Evidence(c: Counter, line: nat) {
    c.hits * (line + 1) + c.windowCount <= c.total
  }

  lemma ApplyEvidence(w: Seconds, before: Option<Counter>, e: Event, line: nat)
    requires before.Some? ==> Evidence(before.value, line)
    requires e.Ask? ==> e.request.policy.line == line
    ensures var after := Apply(w, before, e); after.Some? ==> Evidence(after.value, line)
  {
  }

  /** Each charge stands for `line + 1` requests of its own, whatever is deleted or collected in between. */
  lemma {:induction false} EvidenceHolds(w: Seconds, es: seq<Event>, line: nat)
    requires SameLine(es, line)
    ensures Replay(w, es).Some? ==> Evidence(Replay(w, es).value, line)
  {
    if es != [] {
      EvidenceHolds(w, es[..|es| - 1], line);
      ApplyEvidence(w, Replay(w, es[..|es| - 1]), es[|es| - 1], line);
    }
  }

  /** What a number of charges proves about the number of requests. */
  lemma HitsNeedRequests(c: Counter, line: nat, threshold: nat)
    requires Evidence(c, line) && 1 <= c.windowCount && threshold <= c.hits
    ensures threshold * (line + 1) + 1 <= c.total
  {
    assert c.hits * (line + 1) == threshold * (line + 1) + (c.hits - threshold) * (line + 1);
  }

  // ---- Counters that have lived through collections and deletes ----

  predicate UnderPolicy(es: seq<Event>, p: Policy) {
    forall i :: 0 <= i < |es| && es[i].Ask? ==> es[i].request.policy == p
  }

  /** Clock readings of the requests since the counter was created. */
  function Lived(w: Seconds, es: seq<Event>): seq<nat> {
    if es == [] then []
    else
      var n := |es| - 1;
      if Apply(w, Replay(w, es[..n]), es[n]).None? then []
      else if es[n].Ask? then Lived(w, es[..n]) + [es[n].request.now]
      else Lived(w, es[..n])
  }

  lemma {:induction false} ReplayIsFinal(w: Seconds, p: Policy, es: seq<Event>)
    requires UnderPolicy(es, p)
    ensures Replay(w, es) == Final(w, p, Lived(w, es))
  {
    if es != [] {
      var n := |es| - 1;
      ReplayIsFinal(w, p, es[..n]);
      if es[n].Ask? {
        FinalStep(w, p, Lived(w, es[..n]), es[n].request.now);
      }
    }
  }

  /** The closed forms of a counter with any past: they are over the runs of its present life. */
  lemma LiveClosedForm(w: Seconds, p: Policy, es: seq<Event>, rs: seq<seq<nat>>)
    requires p.Sound() && UnderPolicy(es, p) && Replay(w, es).Some?
    requires AreRuns(w, rs) && Flatten(rs) == Lived(w, es)
    ensures rs != [] && ClosedForm(w, p, rs, Replay(w, es).value)
  {
    ReplayIsFinal(w, p, es);
    ClosedForms(w, p, rs);
  }

  /** Runs of more than `n` requests. */
  function LongerThan(rs: seq<seq<nat>>, n: int): nat {
    if rs == [] then 0 else LongerThan(rs[..|rs| - 1], n) + if |rs[|rs| - 1]| > n then 1 else 0
  }

  /** The charges of a counter: one for each run over the line, the open one pending. */
  predicate ChargesLong(w: Seconds, rs: seq<seq<nat>>, line: int, c: Counter)
    requires AreRuns(w, rs) && rs != []
  {
    var last := rs[|rs| - 1];
    && c.slot == SlotOf(last[0], w) && c.windowCount == |last|
    && c.hits + (if |last| > line then 1 else 0) == LongerThan(rs, line)
  }

  lemma NewRunCharges(w: Seconds, p: Policy, rs: seq<seq<nat>>, c: Counter)
    requires AreRuns(w, rs) && |rs| > 1 && |rs[|rs| - 1]| == 1
    requires ChargesLong(w, rs[..|rs| - 1], p.line, c)
    ensures ChargesLong(w, rs, p.line, Record(w, Some(c), Request(rs[|rs| - 1][0], p)))
  {
  }

  lemma LongerRunCharges(w: Seconds, p: Policy, rs: seq<seq<nat>>, c: Counter)
    requires AreRuns(w, rs) && rs != [] && |rs[|rs| - 1]| > 1 && AreRuns(w, Shorter(rs))
    requires ChargesLong(w, Shorter(rs), p.line, c)
    ensures ChargesLong(w, rs, p.line, Record(w, Some(c), Request(rs[|rs| - 1][|rs[|rs| - 1]| - 1], p)))
  {
  }

  /** The charges of a series of requests, for any policy, sound or not. */
  lemma {:induction false} ChargesAreLongRuns(w: Seconds, p: Policy, rs: seq<seq<nat>>)
    requires AreRuns(w, rs) && rs != []
    ensures Final(w, p, Flatten(rs)).Some?
    ensures ChargesLong(w, rs, p.line, Final(w, p, Flatten(rs)).value)
    decreases |Flatten(rs)|
  {
    var n := |rs| - 1;
    var last := rs[n];
    if |last| > 1 {
      ShorterRuns(w, rs);
      ChargesAreLongRuns(w, p, Shorter(rs));
      FinalStep(w, p, Flatten(Shorter(rs)), last[|last| - 1]);
      LongerRunCharges(w, p, rs, Final(w, p, Flatten(Shorter(rs))).value);
    } else {
      assert last == [last[0]];
      FinalStep(w, p, Flatten(rs[..n]), last[0]);
      if n > 0 {
        ChargesAreLongRuns(w, p, rs[..n]);
        NewRunCharges(w, p, rs, Final(w, p, Flatten(rs[..n])).value);
      } else {
        assert rs[..0] == [];
      }
    }
  }

  /** Refused requests since the counter was created. */
  function RefusedOf(w: Seconds, es: seq<Event>): nat {
    if es == [] then 0
    else
      var n := |es| - 1;
      if Apply(w, Replay(w, es[..n]), es[n]).None? then 0
      else RefusedOf(w, es[..n]) + if es[n].Ask? && !VerdictAt(w, es, n).allowed then 1 else 0
  }

  function Excess(n: nat, cap: int): nat {
    if n > cap then n - cap else 0
  }

  /** What the charges and the open slot of a counter say about its refusals. */
  predicate ChargesBacked(c: Counter, p: Policy, refused: nat) {
    c.hits * (p.line + 1 - p.Cap()) + Excess(c.windowCount, p.Cap()) <= refused
  }

  lemma MoreTimes(n: nat, k: int)
    ensures (n + 1) * k == n * k + k
  {
  }

  lemma RecordBacked(w: Seconds, before: Option<Counter>, r: Request, refused: nat)
    requires r.policy.Sound() && r.policy.Cap() <= r.policy.line
    requires before.Some? ==> ChargesBacked(before.value, r.policy, refused)
    ensures ChargesBacked(Record(w, before, r), r.policy, refused + if Verdict(w, before, r).allowed then 0 else 1)
  {
    if before.Some? {
      MoreTimes(before.value.hits, r.policy.line + 1 - r.policy.Cap());
    }
  }

  /** With the cap at or under the line, each charge of a live counter stands for `line + 1 - cap` refusals. */
  lemma {:induction false} ChargesAreRefusals(w: Seconds, p: Policy, es: seq<Event>)
    requires p.Sound() && p.Cap() <= p.line && UnderPolicy(es, p)
    ensures Replay(w, es).Some? ==> ChargesBacked(Replay(w, es).value, p, RefusedOf(w, es))
  {
    if es != [] {
      hide ChargesBacked, Record;
      var n := |es| - 1;
      ChargesAreRefusals(w, p, es[..n]);
      if es[n].Ask? {
        RecordBacked(w, Replay(w, es[..n]), es[n].request, RefusedOf(w, es[..n]));
      }
    }
  }
}
