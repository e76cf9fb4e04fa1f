/** Collecting idle counters does not change any decision. */
module Collection {
  import opened Clock
  import opened Wrappers
  import opened Counters
  import opened Sequences
  import opened Bounds

  /** The same history in a map that never collects. */
  function Uncollected(es: seq<Event>): seq<Event> {
    if es == [] then []
    else if Last(es).Collect? then Uncollected(Front(es))
    else Uncollected(Front(es)) + [Last(es)]
  }

  /** The slot of the counter that a collection has taken away and that no event has replaced since. */
  function Removed(w: Seconds, es: seq<Event>): Option<nat> {
    if es == [] then None
    else match Last(es)
      case Ask(_) => None
      case Drop => None
      case Collect(_) =>
        if Removes(w, es, |es| - 1) then Some(Replay(w, Front(es)).value.slot) else Removed(w, Front(es))
  }

  /** No request comes back to the slot of a counter that has just been collected. */
  predicate NoReturn(w: Seconds, es: seq<Event>) {
    es == [] || (
      && NoReturn(w, Front(es))
      && (Last(es).Ask? ==> Removed(w, Front(es)) != Some(SlotOf(Last(es).request.now, w))))
  }

  /** Every decision of the history is the one of a map that never collects. */
  predicate AllAgree(w: Seconds, es: seq<Event>) {
    es == [] || (
      && AllAgree(w, Front(es))
      && (Last(es).Ask? ==> Agrees(w, Front(es), Last(es).request)))
  }

  predicate Agrees(w: Seconds, es: seq<Event>, r: Request) {
    Verdict(w, Replay(w, es), r) == Verdict(w, Replay(w, Uncollected(es)), r)
  }

  /** What a collecting map's counter and a never-collecting map's counter have in common. */
  predicate Simulates(kept: Option<Counter>, whole: Option<Counter>, removed: Option<nat>) {
    match (kept, whole)
    case (None, None) => removed.None?
    case (Some(_), None) => false
    case (Some(a), Some(b)) =>
      a.slot == b.slot && a.windowCount == b.windowCount && a.lastRequest == b.lastRequest && removed.None?
    case (None, Some(b)) => removed == Some(b.slot) && b.windowCount >= 1
  }

  lemma UncollectedStep(w: Seconds, es: seq<Event>)
    requires es != []
    ensures Replay(w, Uncollected(es)) ==
      if Last(es).Collect? then Replay(w, Uncollected(Front(es)))
      else Apply(w, Replay(w, Uncollected(Front(es))), Last(es))
  {
  }

  /** The two counters agree as long as no request comes back. */
  lemma {:induction false} CollectionSimulates(w: Seconds, es: seq<Event>)
    requires NoReturn(w, es)
    ensures Simulates(Replay(w, es), Replay(w, Uncollected(es)), Removed(w, es))
  {
    if es != [] {
      CollectionSimulates(w, Front(es));
      UncollectedStep(w, es);
      ReplayConsistent(w, Uncollected(Front(es)));
    }
  }

  lemma AgreesIff(w: Seconds, es: seq<Event>, r: Request)
    requires NoReturn(w, es)
    ensures Agrees(w, es, r) <==> Removed(w, es) != Some(SlotOf(r.now, w))
  {
    CollectionSimulates(w, es);
  }

  /** The exact condition: collection changes no decision just when no request comes back to the slot of the
      counter that was collected before it. */
  lemma {:induction false} CollectionIsInvisibleIff(w: Seconds, es: seq<Event>)
    ensures AllAgree(w, es) <==> NoReturn(w, es)
  {
    if es != [] {
      CollectionIsInvisibleIff(w, Front(es));
      if Last(es).Ask? && NoReturn(w, Front(es)) {
        AgreesIff(w, Front(es), Last(es).request);
      }
    }
  }

  lemma {:induction false} RemovedIsCleared(w: Seconds, es: seq<Event>)
    ensures Removed(w, es).Some? ==> Cleared(w, es, Removed(w, es).value)
  {
    if es != [] && Removed(w, es).Some? {
      if Removes(w, es, |es| - 1) {
        RemovalClears(w, es);
      } else {
        RemovedIsCleared(w, Front(es));
        ClearedGrows(w, es, Removed(w, es).value);
      }
    }
  }

  /** One window of skew against two windows of idleness leaves a full window: nothing can come back. */
  lemma {:induction false} SkewPreventsReturn(w: Seconds, es: seq<Event>)
    requires WithinSkew(w, es, WindowLength(w))
    ensures NoReturn(w, es)
  {
    if es != [] {
      SkewFront(w, es, WindowLength(w));
      SkewPreventsReturn(w, Front(es));
      RemovedIsCleared(w, Front(es));
      if Last(es).Ask? && Removed(w, Front(es)).Some? {
        ClearedIsOver(w, es, Removed(w, Front(es)).value);
      }
    }
  }

  /** Within one window of skew every decision is the one of a map that never collects. */
  lemma CollectionIsInvisible(w: Seconds, es: seq<Event>, r: Request)
    requires WithinSkew(w, es + [Ask(r)], WindowLength(w))
    ensures Agrees(w, es, r)
  {
    var all := es + [Ask(r)];
    assert Front(all) == es;
    SkewPreventsReturn(w, all);
    CollectionIsInvisibleIff(w, all);
  }

  /** `n` requests at one time. */
  function Volley(n: nat, r: Request): (es: seq<Event>)
    ensures |es| == n
  {
    seq(n, _ => Ask(r))
  }

  lemma {:induction false} VolleyFills(w: Seconds, n: nat, r: Request)
    requires 0 < n
    ensures var o := Replay(w, Volley(n, r));
      o.Some? && o.value.slot == SlotOf(r.now, w) && o.value.windowCount == n && o.value.lastRequest == r.now
  {
    assert Front(Volley(n, r)) == Volley(n - 1, r);
    if n > 1 {
      VolleyFills(w, n - 1, r);
    }
  }

  lemma {:induction false} VolleyStays(n: nat, r: Request)
    ensures Uncollected(Volley(n, r)) == Volley(n, r)
  {
    if n > 0 {
      assert Front(Volley(n, r)) == Volley(n - 1, r);
      VolleyStays(n - 1, r);
    }
  }

  lemma ThenCollect(w: Seconds, es: seq<Event>, g: nat)
    ensures Replay(w, es + [Collect(g)]) == Apply(w, Replay(w, es), Collect(g))
    ensures Uncollected(es + [Collect(g)]) == Uncollected(es)
  {
    assert Front(es + [Collect(g)]) == es;
  }

  /** After `n` requests at `t1` the counter is collected: the next request of the slot is judged as its first. */
  lemma RefilledSlot(w: Seconds, p: Policy, n: nat, t1: nat, g: nat, t2: nat)
    requires 0 < n && IsInactive(SlotOf(t1, w), t1, g, w) && SlotOf(t2, w) == SlotOf(t1, w)
    ensures var es := Volley(n, Request(t1, p)) + [Collect(g)];
      && Verdict(w, Replay(w, es), Request(t2, p)) == Judge(1, p)
      && Verdict(w, Replay(w, Uncollected(es)), Request(t2, p)) == Judge(n + 1, p)
  {
    var volley := Volley(n, Request(t1, p));
    VolleyFills(w, n, Request(t1, p));
    VolleyStays(n, Request(t1, p));
    ThenCollect(w, volley, g);
    hide Volley, Replay, Uncollected;
  }

  /** A nanosecond more of skew is too much, for every window length and every policy that allows anything. */
  lemma SkewIsTight(w: Seconds, p: Policy)
    requires 0 < p.Cap()
    ensures var r := Request(2 * WindowLength(w) - 1, p);
      var es := Volley(p.Cap(), Request(WindowLength(w), p)) + [Collect(3 * WindowLength(w))];
      && WithinSkew(w, es + [Ask(r)], WindowLength(w) + 1)
      && Verdict(w, Replay(w, es), r).allowed
      && !Verdict(w, Replay(w, Uncollected(es)), r).allowed
  {
    SlotIs(WindowLength(w), w, 1);
    SlotIs(2 * WindowLength(w) - 1, w, 1);
    SlotIs(3 * WindowLength(w), w, 3);
    RefilledSlot(w, p, p.Cap(), WindowLength(w), 3 * WindowLength(w), 2 * WindowLength(w) - 1);
  }
}
