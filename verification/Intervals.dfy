/** How many requests of one counter are allowed in an interval of whole windows that need not be aligned. */
module Intervals {
  import opened Clock
  import opened Wrappers
  import opened Counters
  import opened Sequences
  import opened Bounds

  predicate AsksBetween(e: Event, from: nat, to: nat) {
    e.Ask? && from <= e.request.now < to
  }

  /** Allowed requests with a clock reading in the half-open interval. */
  function AllowedBetween(w: Seconds, es: seq<Event>, from: nat, to: nat): nat {
    if es == [] then 0
    else
      var allowed := AsksBetween(Last(es), from, to) && VerdictAt(w, es, |es| - 1).allowed;
      AllowedBetween(w, Front(es), from, to) + if allowed then 1 else 0
  }

  /** Allowed requests in the `n` slots from `s` on. */
  function AllowedInSlots(w: Seconds, es: seq<Event>, s: nat, n: nat): nat {
    if n == 0 then 0 else AllowedInSlots(w, es, s, n - 1) + AllowedIn(w, es, s + n - 1)
  }

  lemma {:induction false} AllowedInSlotsStep(w: Seconds, es: seq<Event>, s: nat, n: nat)
    requires es != []
    ensures AllowedInSlots(w, es, s, n) >= AllowedInSlots(w, Front(es), s, n)
    ensures
      var counts := Last(es).Ask? && s <= SlotOf(Last(es).request.now, w) < s + n && VerdictAt(w, es, |es| - 1).allowed;
      counts ==> AllowedInSlots(w, es, s, n) >= AllowedInSlots(w, Front(es), s, n) + 1
  {
    if n > 0 {
      AllowedInSlotsStep(w, es, s, n - 1);
    }
  }

  /** An interval of `k` windows is covered by `k + 1` slots. */
  lemma {:induction false} IntervalBySlots(w: Seconds, es: seq<Event>, from: nat, k: nat)
    ensures AllowedBetween(w, es, from, from + k * WindowLength(w)) <= AllowedInSlots(w, es, SlotOf(from, w), k + 1)
  {
    if es != [] {
      IntervalBySlots(w, Front(es), from, k);
      AllowedInSlotsStep(w, es, SlotOf(from, w), k + 1);
      if AsksBetween(Last(es), from, from + k * WindowLength(w)) {
        IntervalSlots(from, Last(es).request.now, k, w);
      }
    }
  }

  lemma {:induction false} SlotsByCap(w: Seconds, es: seq<Event>, s: nat, n: nat, cap: nat)
    requires forall x: nat :: AllowedIn(w, es, x) <= cap
    ensures AllowedInSlots(w, es, s, n) <= n * cap
  {
    if n > 0 {
      SlotsByCap(w, es, s, n - 1, cap);
      assert n * cap == (n - 1) * cap + cap;
    }
  }

  /** In order, any interval of `k` windows allows at most `(k + 1) * cap` requests of a counter that is
      only ever collected, as unknown counters are. */
  lemma AnyIntervalBound(w: Seconds, es: seq<Event>, from: nat, k: nat, cap: nat)
    requires InOrder(w, es)
    requires forall i :: 0 <= i < |es| ==> !es[i].Drop?
    requires forall i :: 0 <= i < |es| && es[i].Ask? ==> es[i].request.policy.Cap() <= cap
    ensures AllowedBetween(w, es, from, from + k * WindowLength(w)) <= (k + 1) * cap
  {
    var s := SlotOf(from, w);
    forall x: nat ensures AllowedIn(w, es, x) <= cap {
      NoDropsIn(w, es, x);
      OrderedBound(w, es, x, cap);
    }
    IntervalBySlots(w, es, from, k);
    SlotsByCap(w, es, s, k + 1, cap);
  }

  /** When a client that straddles slot boundaries asks in slot `j`: just before the end of the first slot, and at
      the start of each later one. */
  function StraddleTime(w: Seconds, j: nat): nat {
    if j == 0 then WindowLength(w) - 1 else j * WindowLength(w)
  }

  /** It spends a whole cap in each of the slots 0 to `k - 1`, and asks `n` times in slot `k`. */
  function Straddling(w: Seconds, p: Policy, k: nat, n: nat): seq<Event>
    requires 0 < p.Cap()
    decreases k, n
  {
    if n > 0 then Straddling(w, p, k, n - 1) + [Ask(Request(StraddleTime(w, k), p))]
    else if k > 0 then Straddling(w, p, k - 1, p.Cap())
    else []
  }

  lemma Multiples(i: nat, j: nat, n: nat)
    requires i <= j
    ensures i * n <= j * n && (j + 1) * n == j * n + n
    ensures 0 < j ==> n <= j * n
  {
    assert j * n == i * n + (j - i) * n;
    if 0 < j {
      assert j * n == n + (j - 1) * n;
    }
  }

  lemma WindowIsLong(w: Seconds)
    ensures 1 < WindowLength(w)
  {
  }

  lemma StraddleSlot(w: Seconds, j: nat)
    ensures SlotOf(StraddleTime(w, j), w) == j
    ensures WindowLength(w) - 1 <= StraddleTime(w, j) < (j + 1) * WindowLength(w)
    ensures j > 0 ==> StraddleTime(w, j) < (j + 1) * WindowLength(w) - 1
  {
    WindowIsLong(w);
    hide WindowLength, SlotOf;
    Multiples(j, j, WindowLength(w));
    SlotIs(StraddleTime(w, j), w, j);
  }

  lemma StraddleLater(w: Seconds, i: nat, j: nat)
    requires i <= j
    ensures StraddleTime(w, i) <= StraddleTime(w, j)
  {
    hide WindowLength;
    Multiples(i, j, WindowLength(w));
  }

  /** All requests are of the one policy, in the order of their readings, the latest in slot `k`. */
  predicate AsksUpTo(w: Seconds, p: Policy, es: seq<Event>, k: nat) {
    && (forall i :: 0 <= i < |es| ==> es[i].Ask? && es[i].request.policy == p)
    && (forall i :: 0 <= i < |es| ==> es[i].request.now <= StraddleTime(w, k))
    && AskOrdered(es)
  }

  lemma {:induction false} StraddlingOrder(w: Seconds, p: Policy, k: nat, n: nat)
    requires 0 < p.Cap()
    ensures AsksUpTo(w, p, Straddling(w, p, k, n), k)
    decreases k, n
  {
    if n > 0 {
      StraddlingOrder(w, p, k, n - 1);
    } else if k > 0 {
      StraddlingOrder(w, p, k - 1, p.Cap());
      StraddleLater(w, k - 1, k);
    }
  }

  /** The counter is in slot `k` with `n` requests, or still in the slot before with a whole cap. */
  predicate Fills(p: Policy, o: Option<Counter>, k: nat, n: nat) {
    if n > 0 then o.Some? && o.value.slot == k && o.value.windowCount == n
    else if k > 0 then o.Some? && o.value.slot == k - 1
    else o.None?
  }

  lemma {:induction false} StraddlingAllows(w: Seconds, p: Policy, k: nat, n: nat, to: nat)
    requires 0 < p.Cap() && n <= p.Cap() && StraddleTime(w, k) < to
    ensures AllowedBetween(w, Straddling(w, p, k, n), WindowLength(w) - 1, to) == k * p.Cap() + n
    ensures Fills(p, Replay(w, Straddling(w, p, k, n)), k, n)
    decreases k, n
  {
    var es := Straddling(w, p, k, n);
    if n > 0 {
      StraddlingAllows(w, p, k, n - 1, to);
      StraddleSlot(w, k);
      assert Front(es) == Straddling(w, p, k, n - 1);
    } else if k > 0 {
      StraddleLater(w, k - 1, k);
      StraddlingAllows(w, p, k - 1, p.Cap(), to);
      Multiples(k - 1, k - 1, p.Cap());
    }
  }

  /** The bound is reached: `k + 1` caps inside `k` window lengths, for every policy, window and positive `k`. */
  lemma IntervalBoundIsReached(w: Seconds, p: Policy, k: nat)
    requires 0 < p.Cap() && 0 < k
    ensures var es, from := Straddling(w, p, k, p.Cap()), WindowLength(w) - 1;
      && InOrder(w, es)
      && (forall i :: 0 <= i < |es| ==> es[i].Ask? && es[i].request.policy == p)
      && AllowedBetween(w, es, from, from + k * WindowLength(w)) == (k + 1) * p.Cap()
  {
    hide WindowLength, AllowedBetween;
    StraddleSlot(w, k);
    Multiples(k, k, WindowLength(w));
    Multiples(k, k, p.Cap());
    StraddlingOrder(w, p, k, p.Cap());
    StraddlingAllows(w, p, k, p.Cap(), WindowLength(w) - 1 + k * WindowLength(w));
  }
}
