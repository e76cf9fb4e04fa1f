/** The clock of the service: nanoseconds since the epoch, and the fixed windows cut out of it. */
module Clock {

  const SECOND: nat := 1_000_000_000

  /** A window length in whole seconds. */
  type Seconds = w: nat | 0 < w witness 1

  function Unix(t: nat): nat {
    t / SECOND
  }

  /** The number of the window that contains `t`. */
  function SlotOf(t: nat, w: Seconds): nat {
    Unix(t) / w
  }

  function WindowLength(w: Seconds): (length: nat)
    ensures 0 < length
  {
    w * SECOND
  }

  /** The shared test of both maps: not in the counter's own window, and idle for two full windows. */
  predicate IsInactive(slot: nat, lastRequest: nat, now: nat, w: Seconds) {
    SlotOf(now, w) != slot && now - lastRequest >= 2 * WindowLength(w)
  }

  /** Dividing twice with rounding is dividing once: windows are aligned intervals of equal length. */
  lemma SlotBounds(t: nat, w: Seconds)
    ensures SlotOf(t, w) * WindowLength(w) <= t < (SlotOf(t, w) + 1) * WindowLength(w)
  {
    var u, s := Unix(t), SlotOf(t, w);
    assert s * w <= u < (s + 1) * w;
    assert u * SECOND <= t < (u + 1) * SECOND;
    assert s * WindowLength(w) == (s * w) * SECOND <= u * SECOND;
    assert (u + 1) * SECOND <= ((s + 1) * w) * SECOND == (s + 1) * WindowLength(w);
  }

  lemma FactorLess(a: int, b: int, n: nat)
    ensures a * n < b * n ==> a < b
  {
    if b <= a {
      assert (a - b) * n >= 0;
    }
  }

  /** `SlotBounds` determines the slot. */
  lemma SlotIs(t: nat, w: Seconds, s: nat)
    requires s * WindowLength(w) <= t < (s + 1) * WindowLength(w)
    ensures SlotOf(t, w) == s
  {
    SlotBounds(t, w);
    FactorLess(SlotOf(t, w), s + 1, WindowLength(w));
    FactorLess(s, SlotOf(t, w) + 1, WindowLength(w));
  }

  lemma LaterMultiple(s1: nat, s2: nat, k: nat, n: nat, t1: nat, t2: nat)
    requires s1 * n <= t1 && t2 < (s2 + 1) * n && t1 + k * n <= t2
    ensures s1 + k <= s2
  {
    assert (s1 + k) * n == s1 * n + k * n;
    FactorLess(s1 + k, s2 + 1, n);
  }

  /** A clock reading that is `k` windows later lies at least `k` slots further on. */
  lemma LaterSlot(t1: nat, t2: nat, k: nat, w: Seconds)
    requires t1 + k * WindowLength(w) <= t2
    ensures SlotOf(t1, w) + k <= SlotOf(t2, w)
  {
    SlotBounds(t1, w);
    SlotBounds(t2, w);
    LaterMultiple(SlotOf(t1, w), SlotOf(t2, w), k, WindowLength(w), t1, t2);
  }

  lemma IntervalMultiple(s1: nat, s2: nat, k: nat, n: nat, t1: nat, t2: nat)
    requires t1 < (s1 + 1) * n && s2 * n <= t2 < t1 + k * n
    ensures s2 <= s1 + k
  {
    assert (s1 + 1 + k) * n == (s1 + 1) * n + k * n;
    FactorLess(s2, s1 + 1 + k, n);
  }

  /** A half-open interval of `k` windows, aligned or not, meets at most `k + 1` slots. */
  lemma IntervalSlots(start: nat, t: nat, k: nat, w: Seconds)
    requires start <= t < start + k * WindowLength(w)
    ensures SlotOf(start, w) <= SlotOf(t, w) <= SlotOf(start, w) + k
  {
    LaterSlot(start, t, 0, w);
    SlotBounds(start, w);
    SlotBounds(t, w);
    IntervalMultiple(SlotOf(start, w), SlotOf(t, w), k, WindowLength(w), start, t);
  }
}
