/** How many requests one counter allows, over histories in lock order.

    Clock readings are taken before the lock, so they may go backwards along a history. */
module Bounds {
  import opened Clock
  import opened Wrappers
  import opened Counters
  import opened Sequences

  predicate AsksIn(w: Seconds, e: Event, s: nat) {
    e.Ask? && SlotOf(e.request.now, w) == s
  }

  /** Some request of the history lies in a later slot than `s`. */
  predicate PastSlot(w: Seconds, es: seq<Event>, s: nat) {
    exists i :: 0 <= i < |es| && AsksAfter(w, es[i], s)
  }

  predicate AsksAfter(w: Seconds, e: Event, s: nat) {
    e.Ask? && SlotOf(e.request.now, w) > s
  }

  /** Requests of slot `s` or before that come after a request of a later slot than their own. */
  function Stale(w: Seconds, es: seq<Event>, s: nat): nat {
    if es == [] then 0
    else
      var late := Last(es).Ask? && SlotOf(Last(es).request.now, w) <= s
        && PastSlot(w, Front(es), SlotOf(Last(es).request.now, w));
      Stale(w, Front(es), s) + if late then 1 else 0
  }

  /** Deletes of either kind that removed the counter while it was in slot `s`. */
  function LossesIn(w: Seconds, es: seq<Event>, s: nat): nat {
    if es == [] then 0
    else
      var before := Replay(w, Front(es));
      LossesIn(w, Front(es), s) + if InSlot(before, s) && Apply(w, before, Last(es)).None? then 1 else 0
  }

  /** Unconditional deletes that hit the counter while it was in slot `s`. */
  function DropsIn(w: Seconds, es: seq<Event>, s: nat): nat {
    if es == [] then 0
    else
      var before := Replay(w, Front(es));
      DropsIn(w, Front(es), s) + if Last(es).Drop? && InSlot(before, s) then 1 else 0
  }

  lemma {:induction false} NoDropsIn(w: Seconds, es: seq<Event>, s: nat)
    requires forall i :: 0 <= i < |es| ==> !es[i].Drop?
    ensures DropsIn(w, es, s) == 0
  {
    if es != [] {
      NoDropsIn(w, Front(es), s);
    }
  }

  /** Requests of slot `s` that are allowed. */
  function AllowedIn(w: Seconds, es: seq<Event>, s: nat): nat {
    if es == [] then 0
    else
      var allowed := AsksIn(w, Last(es), s) && VerdictAt(w, es, |es| - 1).allowed;
      AllowedIn(w, Front(es), s) + if allowed then 1 else 0
  }

  /** Requests of slot `s`. */
  function AskedIn(w: Seconds, es: seq<Event>, s: nat): nat {
    if es == [] then 0 else AskedIn(w, Front(es), s) + if AsksIn(w, Last(es), s) then 1 else 0
  }

  /** `cap` bounds limit plus burst of every request of slot `s`. */
  predicate CapIn(w: Seconds, es: seq<Event>, s: nat, cap: nat) {
    forall i :: 0 <= i < |es| && AsksIn(w, es[i], s) ==> es[i].request.policy.Cap() <= cap
  }

  /** Requests that start counting slot `s` from one: they find no counter, or one in another slot. */
  function Entries(w: Seconds, es: seq<Event>, s: nat): nat {
    if es == [] then 0
    else
      var before := Replay(w, Front(es));
      Entries(w, Front(es), s) + if AsksIn(w, Last(es), s) && !InSlot(before, s) then 1 else 0
  }

  predicate InSlot(o: Option<Counter>, s: nat) {
    o.Some? && o.value.slot == s
  }

  function Min(a: nat, b: nat): nat {
    if a <= b then a else b
  }

  /** Each entry allows at most `cap` requests. */
  lemma {:induction false} AllowedByEntries(w: Seconds, es: seq<Event>, s: nat, cap: nat)
    requires CapIn(w, es, s, cap)
    ensures var o := Replay(w, es);
      if InSlot(o, s)
      then Entries(w, es, s) >= 1 && AllowedIn(w, es, s) <= (Entries(w, es, s) - 1) * cap + Min(o.value.windowCount, cap)
      else AllowedIn(w, es, s) <= Entries(w, es, s) * cap
  {
    if es != [] {
      var n := Entries(w, Front(es), s);
      AllowedByEntries(w, Front(es), s, cap);
      ReplayConsistent(w, Front(es));
      if n > 0 {
        assert n * cap == (n - 1) * cap + cap;
      }
    }
  }

  lemma PastSlotGrows(w: Seconds, es: seq<Event>, s: nat)
    requires es != []
    ensures PastSlot(w, es, s) <==> PastSlot(w, Front(es), s) || AsksAfter(w, Last(es), s)
  {
  }

  /** Every entry but the first is paid for by a stale request or by a loss of its own: leaving slot `s`
      downwards is stale at once, and leaving it upwards makes the next entry stale. */
  lemma {:induction false} EntriesArePaid(w: Seconds, es: seq<Event>, s: nat)
    ensures Entries(w, es, s) <= 1 + Stale(w, es, s) + LossesIn(w, es, s)
    ensures InSlot(Replay(w, es), s) || PastSlot(w, es, s) || Entries(w, es, s) <= Stale(w, es, s) + LossesIn(w, es, s)
  {
    if es != [] {
      EntriesArePaid(w, Front(es), s);
      PastSlotGrows(w, es, s);
      if Last(es).Ask? && InSlot(Replay(w, Front(es)), s) && SlotOf(Last(es).request.now, w) < s {
        SomeRequestIn(w, Front(es));
      }
    }
  }

  /** The slot of a counter was read by a request of its history. */
  lemma {:induction false} SomeRequestIn(w: Seconds, es: seq<Event>)
    ensures Replay(w, es).Some? ==> exists i :: 0 <= i < |es| && AsksIn(w, es[i], Replay(w, es).value.slot)
  {
    if es != [] && Replay(w, es).Some? {
      if Last(es).Ask? {
        ReplayConsistent(w, es);
        assert AsksIn(w, es[|es| - 1], Replay(w, es).value.slot);
      } else {
        SomeRequestIn(w, Front(es));
        var i :| 0 <= i < |Front(es)| && AsksIn(w, Front(es)[i], Replay(w, Front(es)).value.slot);
        assert AsksIn(w, es[i], Replay(w, es).value.slot);
      }
    }
  }

  lemma ScaleUp(n: nat, m: nat, cap: nat, allowed: nat)
    requires n <= m
    requires allowed <= n * cap || (n >= 1 && allowed <= (n - 1) * cap + cap)
    ensures allowed <= m * cap
  {
  }

  /** The bound in any lock order, with deletes and collections anywhere. */
  lemma OutOfOrderBound(w: Seconds, es: seq<Event>, s: nat, cap: nat)
    requires CapIn(w, es, s, cap)
    ensures AllowedIn(w, es, s) <= (1 + Stale(w, es, s) + LossesIn(w, es, s)) * cap
  {
    AllowedByEntries(w, es, s, cap);
    EntriesArePaid(w, es, s);
    ScaleUp(Entries(w, es, s), 1 + Stale(w, es, s) + LossesIn(w, es, s), cap, AllowedIn(w, es, s));
  }

  /** One run per slot is not enough: slots 5, 6, 5, 6 under limit one allow two requests of slot 5. */
  lemma SlotReentered()
    ensures CapIn(1, Zigzag(4), 5, 1)
    ensures AllowedIn(1, Zigzag(4), 5) == 2
    ensures Stale(1, Zigzag(4), 5) == 1
    ensures LossesIn(1, Zigzag(4), 5) == 0
  {
    ZigzagStep(0);
    ZigzagStep(1);
    ZigzagStep(2);
    ZigzagStep(3);
    assert Zigzag(0) == [];
    assert !PastSlot(1, Zigzag(0), 5) && !PastSlot(1, Zigzag(1), 6) && !PastSlot(1, Zigzag(3), 6);
    assert AsksAfter(1, Zigzag(2)[1], 5);
  }

  lemma ZigzagStep(n: nat)
    ensures Front(Zigzag(n + 1)) == Zigzag(n) && Last(Zigzag(n + 1)) == Ask(Zig(n))
    ensures Replay(1, Zigzag(n + 1)) == Some(Record(1, Replay(1, Zigzag(n)), Zig(n)))
    ensures Zigzag(n + 1)[..n] == Zigzag(n)
  {
  }

  /** Requests that alternate between the slots 5 and 6 of one second. */
  function Zigzag(n: nat): seq<Event> {
    seq(n, i requires 0 <= i < n => Ask(Zig(i)))
  }

  function Zig(i: nat): Request {
    Request((5 + i % 2) * SECOND, Policy(1, 0, 1))
  }

  // ---- Requests in the order of their readings ----

  /** Requests get the lock in the order of their clock readings. Collections carry the start of their cycle,
      which may well lie before the requests that the counter has served since. */
  predicate AskOrdered(es: seq<Event>) {
    forall i, j :: 0 <= i < j < |es| && es[i].Ask? && es[j].Ask? ==> es[i].request.now <= es[j].request.now
  }

  /** The event at position `i` is a collection that finds the counter idle and removes it. */
  predicate Removes(w: Seconds, es: seq<Event>, i: nat) {
    i < |es| && es[i].Collect? && Replay(w, es[..i]).Some? && Apply(w, Replay(w, es[..i]), es[i]).None?
  }

  /** No request reads the clock more than `skew` before the start of an earlier collection that removed its
      counter. */
  predicate WithinSkew(w: Seconds, es: seq<Event>, skew: nat) {
    forall i, j :: 0 <= i < j < |es| && Removes(w, es, i) && es[j].Ask? ==> es[i].now <= es[j].request.now + skew
  }

  predicate InOrder(w: Seconds, es: seq<Event>) {
    AskOrdered(es) && WithinSkew(w, es, WindowLength(w))
  }

  lemma RemovesBefore(w: Seconds, es: seq<Event>, i: nat)
    requires es != [] && i < |es| - 1
    ensures Removes(w, es, i) <==> Removes(w, Front(es), i)
  {
    assert Front(es)[..i] == es[..i];
  }

  lemma SkewFront(w: Seconds, es: seq<Event>, skew: nat)
    requires WithinSkew(w, es, skew) && es != []
    ensures WithinSkew(w, Front(es), skew)
  {
    var f := Front(es);
    forall i, j | 0 <= i < j < |f| && Removes(w, f, i) && f[j].Ask? ensures f[i].now <= f[j].request.now + skew {
      RemovesBefore(w, es, i);
      assert f[i] == es[i] && f[j] == es[j];
    }
  }

  lemma SkewStep(w: Seconds, es: seq<Event>, e: Event, skew: nat)
    requires WithinSkew(w, es, skew)
    requires e.Ask? ==> forall i :: 0 <= i < |es| && es[i].Collect? ==> es[i].now <= e.request.now + skew
    ensures WithinSkew(w, es + [e], skew)
  {
    var all := es + [e];
    assert Front(all) == es;
    forall i, j | 0 <= i < j < |all| && Removes(w, all, i) && all[j].Ask?
      ensures all[i].now <= all[j].request.now + skew
    {
      RemovesBefore(w, all, i);
    }
  }

  lemma InOrderFront(w: Seconds, es: seq<Event>)
    requires InOrder(w, es) && es != []
    ensures InOrder(w, Front(es))
  {
    var f := Front(es);
    SkewFront(w, es, WindowLength(w));
    assert forall i :: 0 <= i < |f| ==> f[i] == es[i];
  }

  /** No request can lie in slot `s` any more: one has been in a later slot, or a counter has been removed by a
      collection that started two slots later, which leaves out every reading within a window of it. */
  predicate Over(w: Seconds, es: seq<Event>, s: nat) {
    PastSlot(w, es, s) || Cleared(w, es, s)
  }

  predicate Cleared(w: Seconds, es: seq<Event>, s: nat) {
    exists i :: 0 <= i < |es| && Removes(w, es, i) && SlotOf(es[i].now, w) > s + 1
  }

  lemma ClearedGrows(w: Seconds, es: seq<Event>, s: nat)
    requires es != [] && Cleared(w, Front(es), s)
    ensures Cleared(w, es, s)
  {
    var i :| 0 <= i < |Front(es)| && Removes(w, Front(es), i) && SlotOf(Front(es)[i].now, w) > s + 1;
    RemovesBefore(w, es, i);
    assert es[i] == Front(es)[i];
  }

  lemma OverGrows(w: Seconds, es: seq<Event>, s: nat)
    requires es != []
    ensures Over(w, Front(es), s) || AsksAfter(w, Last(es), s) ==> Over(w, es, s)
  {
    PastSlotGrows(w, es, s);
    if Cleared(w, Front(es), s) {
      ClearedGrows(w, es, s);
    }
  }

  /** A counter is removed two slots after its last request, or later. */
  lemma RemovalClears(w: Seconds, es: seq<Event>)
    requires es != [] && Removes(w, es, |es| - 1)
    ensures Cleared(w, es, Replay(w, Front(es)).value.slot)
  {
    ReplayConsistent(w, Front(es));
    LaterSlot(Replay(w, Front(es)).value.lastRequest, es[|es| - 1].now, 2, w);
  }

  /** A window of skew does not reach back into a slot that has been cleared. */
  lemma ClearedIsOver(w: Seconds, es: seq<Event>, s: nat)
    requires WithinSkew(w, es, WindowLength(w)) && es != [] && Last(es).Ask? && Cleared(w, Front(es), s)
    ensures AsksAfter(w, Last(es), s)
  {
    var i :| 0 <= i < |Front(es)| && Removes(w, Front(es), i) && SlotOf(Front(es)[i].now, w) > s + 1;
    RemovesBefore(w, es, i);
    var t := es[|es| - 1].request.now;
    LaterSlot(es[i].now, t + WindowLength(w), 0, w);
    NextSlot(t, w);
  }

  lemma OverIsOver(w: Seconds, es: seq<Event>, s: nat)
    requires InOrder(w, es) && es != [] && Last(es).Ask? && Over(w, Front(es), s)
    ensures AsksAfter(w, Last(es), s)
  {
    if Cleared(w, Front(es), s) {
      ClearedIsOver(w, es, s);
    } else {
      var i :| 0 <= i < |Front(es)| && AsksAfter(w, Front(es)[i], s);
      LaterSlot(es[i].request.now, es[|es| - 1].request.now, 0, w);
    }
  }

  lemma NextSlot(t: nat, w: Seconds)
    ensures SlotOf(t + WindowLength(w), w) == SlotOf(t, w) + 1
  {
    SlotBounds(t, w);
    SlotIs(t + WindowLength(w), w, SlotOf(t, w) + 1);
  }

  /** In order a counter never steps back to an earlier slot. */
  lemma SlotsGrow(w: Seconds, es: seq<Event>)
    requires AskOrdered(es) && es != [] && Last(es).Ask? && Replay(w, Front(es)).Some?
    ensures Replay(w, Front(es)).value.slot <= SlotOf(Last(es).request.now, w)
  {
    SomeRequestIn(w, Front(es));
    var i :| 0 <= i < |Front(es)| && AsksIn(w, Front(es)[i], Replay(w, Front(es)).value.slot);
    LaterSlot(es[i].request.now, es[|es| - 1].request.now, 0, w);
  }

  /** In order only an unconditional delete pays for another entry. */
  lemma {:induction false} EntriesInOrder(w: Seconds, es: seq<Event>, s: nat)
    requires InOrder(w, es)
    ensures Entries(w, es, s) <= 1 + DropsIn(w, es, s)
    ensures InSlot(Replay(w, es), s) || Over(w, es, s) || Entries(w, es, s) <= DropsIn(w, es, s)
  {
    if es != [] {
      InOrderFront(w, es);
      EntriesInOrder(w, Front(es), s);
      OverGrows(w, es, s);
      match Last(es)
      case Ask(r) =>
        if Over(w, Front(es), s) {
          OverIsOver(w, es, s);
        }
        if InSlot(Replay(w, Front(es)), s) {
          SlotsGrow(w, es);
        }
      case Collect(now) =>
        if Removes(w, es, |es| - 1) {
          RemovalClears(w, es);
        }
      case Drop =>
    }
  }

  /** In order a slot allows at most its largest cap, once more for each unconditional delete in it. */
  lemma OrderedBound(w: Seconds, es: seq<Event>, s: nat, cap: nat)
    requires InOrder(w, es) && CapIn(w, es, s, cap)
    ensures AllowedIn(w, es, s) <= (1 + DropsIn(w, es, s)) * cap
  {
    AllowedByEntries(w, es, s, cap);
    EntriesInOrder(w, es, s);
    ScaleUp(Entries(w, es, s), 1 + DropsIn(w, es, s), cap, AllowedIn(w, es, s));
  }

  /** In order the window count is the number of requests of the slot, until it is deleted in the slot. */
  lemma {:induction false} CountIsPosition(w: Seconds, es: seq<Event>, s: nat)
    requires InOrder(w, es) && DropsIn(w, es, s) == 0
    ensures var o := Replay(w, es);
      if InSlot(o, s) then o.value.windowCount == AskedIn(w, es, s)
      else AskedIn(w, es, s) == 0 || Over(w, es, s)
  {
    if es != [] {
      InOrderFront(w, es);
      CountIsPosition(w, Front(es), s);
      OverGrows(w, es, s);
      match Last(es)
      case Ask(r) =>
        if Over(w, Front(es), s) {
          OverIsOver(w, es, s);
        }
        if InSlot(Replay(w, Front(es)), s) {
          SlotsGrow(w, es);
        }
      case Collect(now) =>
        if Removes(w, es, |es| - 1) {
          RemovalClears(w, es);
        }
      case Drop =>
    }
  }

  /** The k-th request of a slot is allowed just when k is at most its own limit plus burst. */
  lemma ExactAdmission(w: Seconds, es: seq<Event>, s: nat)
    requires es != [] && AsksIn(w, Last(es), s)
    requires InOrder(w, es) && DropsIn(w, es, s) == 0
    ensures var d := VerdictAt(w, es, |es| - 1);
      && d.windowCount == AskedIn(w, es, s)
      && (d.allowed <==> AskedIn(w, es, s) <= Last(es).request.policy.Cap())
  {
    CountIsPosition(w, es, s);
    ReplayConsistent(w, es);
  }

  /** With one cap for the whole slot, exactly the earliest `cap` requests are allowed. */
  lemma {:induction false} ConstantCap(w: Seconds, es: seq<Event>, s: nat, cap: nat)
    requires InOrder(w, es) && DropsIn(w, es, s) == 0
    requires forall i :: 0 <= i < |es| && AsksIn(w, es[i], s) ==> es[i].request.policy.Cap() == cap
    ensures AllowedIn(w, es, s) == Min(AskedIn(w, es, s), cap)
  {
    if es != [] {
      InOrderFront(w, es);
      ConstantCap(w, Front(es), s, cap);
      if AsksIn(w, Last(es), s) {
        ExactAdmission(w, es, s);
      }
    }
  }

  /** A request at `now` keeps the history in order, and its slot has seen no unconditional delete. */
  predicate Continues(w: Seconds, es: seq<Event>, now: nat) {
    && InOrder(w, es + [Ask(Request(now, Policy(0, 0, 0)))])
    && DropsIn(w, es, SlotOf(now, w)) == 0
  }

  /** What the counter of a history in order has counted of the slot of the next request. */
  lemma NextPosition(w: Seconds, es: seq<Event>, now: nat)
    requires Continues(w, es, now)
    ensures var o, s := Replay(w, es), SlotOf(now, w);
      AskedIn(w, es, s) == if o.Some? && o.value.slot == s then o.value.windowCount else 0
  {
    var all := es + [Ask(Request(now, Policy(0, 0, 0)))];
    assert Front(all) == es;
    InOrderFront(w, all);
    CountIsPosition(w, es, SlotOf(now, w));
    if Over(w, es, SlotOf(now, w)) {
      OverIsOver(w, all, SlotOf(now, w));
    }
  }
}
