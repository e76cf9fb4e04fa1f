/** The top-25 tables of the admin pages: filtered, sorted and truncated from a snapshot in arbitrary order. */
module TopRows {
  import opened Counters
  import opened CounterMaps
  import opened AbuseStore

  const TOP_N: nat := 25

  /** `hits` is ViolationHits in the table of known keys and AbuseHits in the other two. */
  datatype Row = Row(key: string, total: nat, burstHits: nat, hits: nat)

  datatype SortBy = ByTotal | ByBurst | ByHits

  /** The query parameter; anything else sorts by the table's own hits. */
  function ResolveSort(sort: string): SortBy {
    if sort == "total" then ByTotal else if sort == "burst" then ByBurst else ByHits
  }

  function Metric(order: SortBy, r: Row): nat {
    match order
    case ByTotal => r.total
    case ByBurst => r.burstHits
    case ByHits => r.hits
  }

  /** Lexicographic order of strings, byte by byte. */
  predicate KeyLess(a: string, b: string)
    decreases a
  {
    b != "" && (a == "" || a[0] < b[0] || (a[0] == b[0] && KeyLess(a[1..], b[1..])))
  }

  predicate Before(order: SortBy, a: Row, b: Row) {
    Metric(order, a) > Metric(order, b) || (Metric(order, a) == Metric(order, b) && KeyLess(a.key, b.key))
  }

  lemma {:induction false} KeyLessIsStrict(a: string, b: string)
    ensures !(KeyLess(a, b) && KeyLess(b, a))
    ensures a != b ==> KeyLess(a, b) || KeyLess(b, a)
    decreases a
  {
    if a != "" && b != "" && a[0] == b[0] {
      KeyLessIsStrict(a[1..], b[1..]);
      assert a == [a[0]] + a[1..] && b == [b[0]] + b[1..];
    }
  }

  lemma {:induction false} KeyLessIsTransitive(a: string, b: string, c: string)
    ensures KeyLess(a, b) && KeyLess(b, c) ==> KeyLess(a, c)
    decreases a
  {
    if a != "" && b != "" && c != "" {
      KeyLessIsTransitive(a[1..], b[1..], c[1..]);
    }
  }

  predicate StrictlySorted(order: SortBy, rows: seq<Row>) {
    forall i, j :: 0 <= i < j < |rows| ==> Before(order, rows[i], rows[j])
  }

  predicate DistinctRows(rows: seq<Row>) {
    forall i, j :: 0 <= i < j < |rows| ==> rows[i].key != rows[j].key
  }

  function Insert(order: SortBy, r: Row, rows: seq<Row>): (out: seq<Row>)
    ensures multiset(out) == multiset(rows) + multiset{r}
  {
    if rows == [] || Before(order, r, rows[0]) then
      [r] + rows
    else
      assert rows == [rows[0]] + rows[1..];
      [rows[0]] + Insert(order, r, rows[1..])
  }

  /** The library sort; `SortedIsUnique` shows that no other correct sort would give another result. */
  function Sort(order: SortBy, rows: seq<Row>): (out: seq<Row>)
    ensures multiset(out) == multiset(rows)
  {
    if rows == [] then []
    else
      assert rows == [rows[0]] + rows[1..];
      Insert(order, rows[0], Sort(order, rows[1..]))
  }

  lemma SameRows(a: seq<Row>, b: seq<Row>, r: Row)
    requires multiset(a) == multiset(b)
    ensures r in a <==> r in b
  {
    assert r in multiset(a) <==> r in multiset(b);
  }

  lemma {:induction false} InsertSorts(order: SortBy, r: Row, rows: seq<Row>)
    requires StrictlySorted(order, rows) && forall i :: 0 <= i < |rows| ==> rows[i].key != r.key
    ensures StrictlySorted(order, Insert(order, r, rows))
  {
    if rows != [] {
      KeyLessIsStrict(r.key, rows[0].key);
      if Before(order, r, rows[0]) {
        forall j | 0 <= j < |rows| ensures Before(order, r, rows[j]) {
          KeyLessIsTransitive(r.key, rows[0].key, rows[j].key);
        }
      } else {
        var rest := Insert(order, r, rows[1..]);
        InsertSorts(order, r, rows[1..]);
        forall j | 0 <= j < |rest| ensures Before(order, rows[0], rest[j]) {
          assert rest[j] in multiset(rest);
          assert rest[j] == r || rest[j] in rows[1..];
        }
      }
    }
  }

  lemma {:induction false} SortSorts(order: SortBy, rows: seq<Row>)
    requires DistinctRows(rows)
    ensures StrictlySorted(order, Sort(order, rows))
  {
    if rows != [] {
      SortSorts(order, rows[1..]);
      var rest := Sort(order, rows[1..]);
      forall i | 0 <= i < |rest| ensures rest[i].key != rows[0].key {
        SameRows(rest, rows[1..], rest[i]);
      }
      InsertSorts(order, rows[0], rest);
    }
  }

  /** A strictly sorted listing is determined by the rows it lists. */
  lemma {:induction false} SortedIsUnique(order: SortBy, a: seq<Row>, b: seq<Row>)
    requires StrictlySorted(order, a) && StrictlySorted(order, b)
    requires forall r :: r in a <==> r in b
    ensures a == b
  {
    assert a != [] ==> a[0] in b;
    assert b != [] ==> b[0] in a;
    if a != [] && b != [] {
      KeyLessIsStrict(a[0].key, b[0].key);
      assert a[0] == b[0];
      forall r ensures r in a[1..] <==> r in b[1..] {
        KeyLessIsStrict(r.key, r.key);
        assert r in a <==> r == a[0] || r in a[1..];
        assert r in b <==> r == b[0] || r in b[1..];
      }
      SortedIsUnique(order, a[1..], b[1..]);
      assert a == [a[0]] + a[1..] && b == [b[0]] + b[1..];
    }
  }

  function RowOf(prefix: string, key: string, c: Counter): Row {
    Row(TrimPrefix(key, prefix), c.total, c.burstHits, c.hits)
  }

  /** The rows of a snapshot whose keys begin with `prefix`, in snapshot order. */
  function Rows(snaps: seq<Snapshot>, prefix: string): seq<Row> {
    if snaps == [] then []
    else
      var s := snaps[|snaps| - 1];
      var front := Rows(snaps[..|snaps| - 1], prefix);
      if HasPrefix(s.key, prefix) then front + [RowOf(prefix, s.key, s.counter)] else front
  }

  /** The rows of a map. */
  ghost predicate IsRow(m: CounterMap, prefix: string, r: Row) {
    exists k :: k in m && HasPrefix(k, prefix) && r == RowOf(prefix, k, m[k])
  }

  function Truncate(rows: seq<Row>): seq<Row> {
    if |rows| > TOP_N then rows[..TOP_N] else rows
  }

  function Top(snaps: seq<Snapshot>, prefix: string, order: SortBy): seq<Row> {
    Truncate(Sort(order, Rows(snaps, prefix)))
  }

  /** Entry `i` of the snapshot shows as row `r`. */
  predicate ShowsAs(snaps: seq<Snapshot>, i: nat, prefix: string, r: Row) {
    i < |snaps| && HasPrefix(snaps[i].key, prefix) && r == RowOf(prefix, snaps[i].key, snaps[i].counter)
  }

  lemma {:induction false} RowsAreListed(snaps: seq<Snapshot>, prefix: string, r: Row)
    ensures r in Rows(snaps, prefix) <==> exists i: nat :: ShowsAs(snaps, i, prefix, r)
  {
    if snaps != [] {
      var n := |snaps| - 1;
      RowsAreListed(snaps[..n], prefix, r);
      assert ShowsAs(snaps, n, prefix, r) ==> r in Rows(snaps, prefix);
      if i: nat :| ShowsAs(snaps, i, prefix, r) {
        assert i == n || ShowsAs(snaps[..n], i, prefix, r);
      }
      if i: nat :| ShowsAs(snaps[..n], i, prefix, r) {
        assert ShowsAs(snaps, i, prefix, r);
      }
    }
  }

  lemma TrimIsInjective(a: string, b: string, prefix: string)
    requires HasPrefix(a, prefix) && HasPrefix(b, prefix) && TrimPrefix(a, prefix) == TrimPrefix(b, prefix)
    ensures a == b
  {
  }

  /** Stripping the prefix keeps the keys apart. */
  lemma {:induction false} RowsAreDistinct(snaps: seq<Snapshot>, prefix: string)
    requires forall i, j :: 0 <= i < j < |snaps| ==> snaps[i].key != snaps[j].key
    ensures DistinctRows(Rows(snaps, prefix))
  {
    if snaps != [] {
      var n := |snaps| - 1;
      var front := Rows(snaps[..n], prefix);
      RowsAreDistinct(snaps[..n], prefix);
      if HasPrefix(snaps[n].key, prefix) {
        forall i | 0 <= i < |front| ensures front[i].key != TrimPrefix(snaps[n].key, prefix) {
          RowsAreListed(snaps[..n], prefix, front[i]);
          var j: nat :| ShowsAs(snaps[..n], j, prefix, front[i]);
          if front[i].key == TrimPrefix(snaps[n].key, prefix) {
            TrimIsInjective(snaps[j].key, snaps[n].key, prefix);
          }
        }
      }
    }
  }

  /** The sorted rows of a snapshot: strictly sorted, and exactly the rows of the map. */
  lemma SortedRows(m: CounterMap, snaps: seq<Snapshot>, prefix: string, order: SortBy)
    requires IsSnapshot(m, snaps)
    ensures StrictlySorted(order, Sort(order, Rows(snaps, prefix)))
    ensures forall r :: r in Sort(order, Rows(snaps, prefix)) <==> IsRow(m, prefix, r)
  {
    var rows := Rows(snaps, prefix);
    RowsAreDistinct(snaps, prefix);
    SortSorts(order, rows);
    forall r ensures r in Sort(order, rows) <==> IsRow(m, prefix, r) {
      SameRows(Sort(order, rows), rows, r);
      RowsAreListed(snaps, prefix, r);
      if IsRow(m, prefix, r) {
        var k :| k in m && HasPrefix(k, prefix) && r == RowOf(prefix, k, m[k]);
        var i :| 0 <= i < |snaps| && snaps[i].key == k;
        assert ShowsAs(snaps, i, prefix, r);
      }
    }
  }

  /** The table is a function of the map: the order of the snapshot does not show. */
  lemma TopIgnoresOrder(m: CounterMap, a: seq<Snapshot>, b: seq<Snapshot>, prefix: string, order: SortBy)
    requires IsSnapshot(m, a) && IsSnapshot(m, b)
    ensures Top(a, prefix, order) == Top(b, prefix, order)
  {
    SortedRows(m, a, prefix, order);
    SortedRows(m, b, prefix, order);
    SortedIsUnique(order, Sort(order, Rows(a, prefix)), Sort(order, Rows(b, prefix)));
  }

  /** What the table shows: rows of the map, strictly sorted, and nothing it leaves out ranks above them; it
      leaves something out only when it shows `TOP_N` rows. */
  lemma TopIsTop(m: CounterMap, snaps: seq<Snapshot>, prefix: string, order: SortBy)
    requires IsSnapshot(m, snaps)
    ensures var top := Top(snaps, prefix, order);
      && StrictlySorted(order, top)
      && |top| <= TOP_N
      && (forall r :: r in top ==> IsRow(m, prefix, r))
      && (forall r :: IsRow(m, prefix, r) && r !in top ==> |top| == TOP_N)
      && (forall r, i :: IsRow(m, prefix, r) && r !in top && 0 <= i < |top| ==> Before(order, top[i], r))
  {
    var all := Sort(order, Rows(snaps, prefix));
    var top := Top(snaps, prefix, order);
    SortedRows(m, snaps, prefix, order);
    assert forall i :: 0 <= i < |top| ==> all[i] == top[i] && top[i] in top;
    forall r | IsRow(m, prefix, r) && r !in top
      ensures |top| == TOP_N && forall i :: 0 <= i < |top| ==> Before(order, top[i], r)
    {
      assert r in all;
      var j :| 0 <= j < |all| && all[j] == r;
    }
  }

  // ---- The table in plain words ----

  /** The strings agree up to some position, where `a` ends and `b` goes on, or has the smaller character. */
  ghost predicate Earlier(a: string, b: string) {
    exists n: nat :: Parts(a, b, n)
  }

  predicate Parts(a: string, b: string, n: nat) {
    && n <= |a| && n < |b| && a[..n] == b[..n]
    && (n == |a| || a[n] < b[n])
  }

  lemma {:induction false} KeyLessIsEarlier(a: string, b: string)
    ensures KeyLess(a, b) <==> Earlier(a, b)
    decreases a
  {
    if b != "" && (a == "" || a[0] != b[0]) {
      assert a == "" || a[0] < b[0] ==> Parts(a, b, 0);
      forall n: nat | 0 < n ensures !Parts(a, b, n) {
        if n <= |a| && n < |b| {
          assert a[..n][0] == a[0] && b[..n][0] == b[0];
        }
      }
    } else if b != "" {
      KeyLessIsEarlier(a[1..], b[1..]);
      if Earlier(a, b) {
        var n: nat :| Parts(a, b, n);
        PartsTail(a, b, n - 1);
      }
      if Earlier(a[1..], b[1..]) {
        var n: nat :| Parts(a[1..], b[1..], n);
        PartsTail(a, b, n);
      }
    }
  }

  lemma PartsTail(a: string, b: string, n: nat)
    requires a != "" && b != "" && a[0] == b[0]
    ensures Parts(a, b, n + 1) <==> Parts(a[1..], b[1..], n)
  {
    if n + 1 <= |a| && n + 1 < |b| {
      assert a[..n + 1] == [a[0]] + a[1..][..n] && b[..n + 1] == [b[0]] + b[1..][..n];
      assert a[..n + 1][1..] == a[1..][..n] && b[..n + 1][1..] == b[1..][..n];
    }
  }

  /** The larger count comes first, and of equal counts the earlier key. */
  ghost predicate LargerFirst(x: nat, y: nat, key: string, other: string) {
    x > y || (x == y && Earlier(key, other))
  }

  /** The order of two rows in a table sorted by the query parameter. */
  ghost predicate InTableOrder(sort: string, a: Row, b: Row) {
    if sort == "total" then LargerFirst(a.total, b.total, a.key, b.key)
    else if sort == "burst" then LargerFirst(a.burstHits, b.burstHits, a.key, b.key)
    else LargerFirst(a.hits, b.hits, a.key, b.key)
  }

  /** Counters whose keys begin with `prefix`. */
  function Matching(m: CounterMap, prefix: string): set<string> {
    set k | k in m && prefix <= k
  }

  /** Each row shows the counter of its key, with the key's prefix taken off. */
  predicate ShowsCounters(m: CounterMap, prefix: string, rows: seq<Row>) {
    forall i :: 0 <= i < |rows| ==>
      && prefix + rows[i].key in m
      && var c := m[prefix + rows[i].key];
        rows[i].total == c.total && rows[i].burstHits == c.burstHits && rows[i].hits == c.hits
  }

  ghost predicate IsOrdered(sort: string, rows: seq<Row>) {
    forall i, j :: 0 <= i < j < |rows| ==> InTableOrder(sort, rows[i], rows[j])
  }

  /** A counter that the table leaves out comes after every row that it shows. */
  ghost predicate LeavesOutLess(m: CounterMap, prefix: string, sort: string, rows: seq<Row>) {
    forall k, i :: k in Matching(m, prefix) && IsOmitted(prefix, k, rows) && 0 <= i < |rows| ==>
      InTableOrder(sort, rows[i], Row(k[|prefix|..], m[k].total, m[k].burstHits, m[k].hits))
  }

  predicate IsOmitted(prefix: string, k: string, rows: seq<Row>) {
    forall i :: 0 <= i < |rows| ==> prefix + rows[i].key != k
  }

  /** The table of the counters of `m` whose keys begin with `prefix`: its rows, their order, how many, and which. */
  ghost predicate IsTable(m: CounterMap, prefix: string, sort: string, rows: seq<Row>) {
    && ShowsCounters(m, prefix, rows)
    && IsOrdered(sort, rows)
    && |rows| == (if |Matching(m, prefix)| < 25 then |Matching(m, prefix)| else 25)
    && LeavesOutLess(m, prefix, sort, rows)
  }

  lemma BeforeIsTableOrder(sort: string, a: Row, b: Row)
    ensures Before(ResolveSort(sort), a, b) <==> InTableOrder(sort, a, b)
  {
    KeyLessIsEarlier(a.key, b.key);
  }

  predicate DistinctSnaps(snaps: seq<Snapshot>) {
    forall i, j :: 0 <= i < j < |snaps| ==> snaps[i].key != snaps[j].key
  }

  function Picked(snaps: seq<Snapshot>, prefix: string): set<string> {
    set i | 0 <= i < |snaps| && prefix <= snaps[i].key :: snaps[i].key
  }

  lemma PickedStep(snaps: seq<Snapshot>, prefix: string)
    requires snaps != [] && DistinctSnaps(snaps)
    ensures var n := |snaps| - 1;
      var key, front := snaps[n].key, Picked(snaps[..n], prefix);
      key !in front && Picked(snaps, prefix) == if prefix <= key then front + {key} else front
  {
    var n := |snaps| - 1;
    assert forall i :: 0 <= i < n ==> snaps[..n][i] == snaps[i];
  }

  lemma {:induction false} RowsAreMatching(snaps: seq<Snapshot>, prefix: string)
    requires DistinctSnaps(snaps)
    ensures |Rows(snaps, prefix)| == |Picked(snaps, prefix)|
  {
    if snaps != [] {
      RowsAreMatching(snaps[..|snaps| - 1], prefix);
      PickedStep(snaps, prefix);
      hide Picked;
    }
  }

  lemma RowShows(m: CounterMap, prefix: string, r: Row)
    requires IsRow(m, prefix, r)
    ensures prefix + r.key in m
    ensures var c := m[prefix + r.key];
      r.total == c.total && r.burstHits == c.burstHits && r.hits == c.hits
  {
    var k :| k in m && HasPrefix(k, prefix) && r == RowOf(prefix, k, m[k]);
    assert k == prefix + r.key;
  }

  /** The table, in plain words. */
  lemma TopIsTable(m: CounterMap, snaps: seq<Snapshot>, prefix: string, sort: string)
    requires IsSnapshot(m, snaps)
    ensures IsTable(m, prefix, sort, Top(snaps, prefix, ResolveSort(sort)))
  {
    var order := ResolveSort(sort);
    var top := Top(snaps, prefix, order);
    TopIsTop(m, snaps, prefix, order);
    forall i | 0 <= i < |top|
      ensures prefix + top[i].key in m
      ensures var c := m[prefix + top[i].key];
        top[i].total == c.total && top[i].burstHits == c.burstHits && top[i].hits == c.hits
    {
      RowShows(m, prefix, top[i]);
    }
    forall i, j | 0 <= i < j < |top| ensures InTableOrder(sort, top[i], top[j]) {
      BeforeIsTableOrder(sort, top[i], top[j]);
    }
    TopIsLong(m, snaps, prefix, order);
    forall k, i | k in Matching(m, prefix) && IsOmitted(prefix, k, top) && 0 <= i < |top|
      ensures InTableOrder(sort, top[i], Row(k[|prefix|..], m[k].total, m[k].burstHits, m[k].hits))
    {
      var r := RowOf(prefix, k, m[k]);
      assert IsRow(m, prefix, r);
      assert prefix + r.key == k;
      assert r !in top;
      BeforeIsTableOrder(sort, top[i], r);
    }
  }

  lemma TopIsLong(m: CounterMap, snaps: seq<Snapshot>, prefix: string, order: SortBy)
    requires IsSnapshot(m, snaps)
    ensures |Top(snaps, prefix, order)| == if |Matching(m, prefix)| < 25 then |Matching(m, prefix)| else 25
  {
    var rows := Rows(snaps, prefix);
    RowsAreMatching(snaps, prefix);
    assert Picked(snaps, prefix) == Matching(m, prefix);
    assert |Sort(order, rows)| == |rows| by {
      assert |multiset(Sort(order, rows))| == |multiset(rows)|;
    }
  }

  method TopUnknown(unknown: UnknownMap, prefix: string, sort: string) returns (rows: seq<Row>)
    requires unknown.Valid()
    ensures exists snaps :: IsSnapshot(unknown.contents, snaps) && rows == Top(snaps, prefix, ResolveSort(sort))
    ensures forall snaps :: IsSnapshot(unknown.contents, snaps) ==> rows == Top(snaps, prefix, ResolveSort(sort))
    ensures IsTable(unknown.contents, prefix, sort, rows)
  {
    var snaps := unknown.Snapshot();
    rows := [];
    for n := 0 to |snaps|
      invariant rows == Rows(snaps[..n], prefix)
    {
      hide IsSnapshot;
      assert snaps[..n + 1][..n] == snaps[..n];
      var c := snaps[n];
      if !HasPrefix(c.key, prefix) {
        continue;
      }
      rows := rows + [Row(TrimPrefix(c.key, prefix), c.counter.total, c.counter.burstHits, c.counter.hits)];
    }
    assert snaps[..|snaps|] == snaps;
    rows := Sort(ResolveSort(sort), rows);
    if |rows| > TOP_N {
      rows := rows[..TOP_N];
    }
    TopIsTable(unknown.contents, snaps, prefix, sort);
    forall other | IsSnapshot(unknown.contents, other) ensures rows == Top(other, prefix, ResolveSort(sort)) {
      TopIgnoresOrder(unknown.contents, snaps, other, prefix, ResolveSort(sort));
    }
  }

  method TopKnown(known: KnownMap, sort: string) returns (rows: seq<Row>)
    requires known.Valid()
    ensures exists snaps :: IsSnapshot(known.contents, snaps) && rows == Top(snaps, "", ResolveSort(sort))
    ensures forall snaps :: IsSnapshot(known.contents, snaps) ==> rows == Top(snaps, "", ResolveSort(sort))
    ensures IsTable(known.contents, "", sort, rows)
  {
    var snaps := known.Snapshot();
    rows := [];
    for n := 0 to |snaps|
      invariant rows == Rows(snaps[..n], "")
    {
      assert snaps[..n + 1][..n] == snaps[..n];
      var c := snaps[n];
      rows := rows + [Row(c.key, c.counter.total, c.counter.burstHits, c.counter.hits)];
    }
    assert snaps[..|snaps|] == snaps;
    rows := Sort(ResolveSort(sort), rows);
    if |rows| > TOP_N {
      rows := rows[..TOP_N];
    }
    TopIsTable(known.contents, snaps, "", sort);
    forall other | IsSnapshot(known.contents, other) ensures rows == Top(other, "", ResolveSort(sort)) {
      TopIgnoresOrder(known.contents, snaps, other, "", ResolveSort(sort));
    }
  }
}
