/** The Redis side: reachability as last observed, the limits that a lookup returns, and the abuse keyspace.

    Redis itself is an arbitrary source of replies; what it stores is a map from locations to records. */
module AbuseStore {
  import opened Clock
  import opened Wrappers
  import opened Counters

  const UNKNOWN_KEY_PREFIX := "key:"
  const UNKNOWN_IP_PREFIX := "ip:"
  const DB_ABUSE_KEY := 2
  const DB_ABUSE_IP := 3
  const ABUSE_KEY_SPACE := "rate:abuse:key:"
  const ABUSE_IP_SPACE := "rate:abuse:ip:"

  predicate HasPrefix(s: string, prefix: string) {
    prefix <= s
  }

  function TrimPrefix(s: string, prefix: string): string {
    if HasPrefix(s, prefix) then s[|prefix|..] else s
  }

  datatype AbuseRecord =
    AbuseRecord(firstSeen: nat, lastSeen: nat, totalRequests: nat, burstHits: nat, abuseHits: nat)

  /** What a missing hash parses to. */
  const NO_FIELDS := AbuseRecord(0, 0, 0, 0, 0)

  /** The record that a transfer writes for a counter. */
  function RecordOf(c: Counter): AbuseRecord {
    AbuseRecord(Unix(c.firstRequest), Unix(c.lastRequest), c.total, c.burstHits, c.hits)
  }

  /** A key of one logical database. */
  datatype Location = Location(db: int, key: string)

  type Records = map<Location, AbuseRecord>

  /** Where the record of an unknown counter goes; None is the error branch of transfer. */
  function Place(counterKey: string): Option<Location> {
    if HasPrefix(counterKey, UNKNOWN_KEY_PREFIX) then
      Some(Location(DB_ABUSE_KEY, ABUSE_KEY_SPACE + TrimPrefix(counterKey, UNKNOWN_KEY_PREFIX)))
    else if HasPrefix(counterKey, UNKNOWN_IP_PREFIX) then
      Some(Location(DB_ABUSE_IP, ABUSE_IP_SPACE + TrimPrefix(counterKey, UNKNOWN_IP_PREFIX)))
    else None
  }

  /** The keys that the router uses in the unknown map. */
  predicate Namespaced(counterKey: string) {
    HasPrefix(counterKey, UNKNOWN_KEY_PREFIX) || HasPrefix(counterKey, UNKNOWN_IP_PREFIX)
  }

  /** An API key is written to the key database only, and stripping the keyspace prefix gives it back. */
  lemma KeyRoundTrip(apiKey: string)
    ensures Place("key:" + apiKey) == Some(Location(2, "rate:abuse:key:" + apiKey))
    ensures ScanKey(ABUSE_KEY_SPACE, ABUSE_KEY_SPACE + apiKey) == apiKey
  {
  }

  /** An address is written to the address database only, and stripping the keyspace prefix gives it back. */
  lemma IpRoundTrip(ip: string)
    ensures Place("ip:" + ip) == Some(Location(3, "rate:abuse:ip:" + ip))
    ensures ScanKey(ABUSE_IP_SPACE, ABUSE_IP_SPACE + ip) == ip
  {
    assert (UNKNOWN_IP_PREFIX + ip)[0] == 'i';
    assert TrimPrefix(UNKNOWN_IP_PREFIX + ip, UNKNOWN_IP_PREFIX) == ip;
  }

  /** The counter whose record is kept at `l`. */
  function Origin(l: Location): Option<string> {
    if l.db == DB_ABUSE_KEY && HasPrefix(l.key, ABUSE_KEY_SPACE) then
      Some(UNKNOWN_KEY_PREFIX + ScanKey(ABUSE_KEY_SPACE, l.key))
    else if l.db == DB_ABUSE_IP && HasPrefix(l.key, ABUSE_IP_SPACE) then
      Some(UNKNOWN_IP_PREFIX + ScanKey(ABUSE_IP_SPACE, l.key))
    else None
  }

  /** Transfer's error branch is exactly the keys outside both namespaces, and a record tells its counter. */
  lemma OriginOfPlace(counterKey: string)
    ensures Place(counterKey).Some? <==> Namespaced(counterKey)
    ensures Place(counterKey).Some? ==> Origin(Place(counterKey).value) == Some(counterKey)
  {
    if HasPrefix(counterKey, UNKNOWN_KEY_PREFIX) {
      var k := TrimPrefix(counterKey, UNKNOWN_KEY_PREFIX);
      assert ScanKey(ABUSE_KEY_SPACE, ABUSE_KEY_SPACE + k) == k;
      assert counterKey == UNKNOWN_KEY_PREFIX + k;
    } else if HasPrefix(counterKey, UNKNOWN_IP_PREFIX) {
      var k := TrimPrefix(counterKey, UNKNOWN_IP_PREFIX);
      assert ScanKey(ABUSE_IP_SPACE, ABUSE_IP_SPACE + k) == k;
      assert counterKey == UNKNOWN_IP_PREFIX + k;
    }
  }

  /** Conversely, each location of either keyspace is the place of the counter it names. */
  lemma PlaceOfOrigin(l: Location)
    ensures Origin(l).Some? ==> Place(Origin(l).value) == Some(l)
  {
    if l.db == DB_ABUSE_KEY && HasPrefix(l.key, ABUSE_KEY_SPACE) {
      KeyRoundTrip(ScanKey(ABUSE_KEY_SPACE, l.key));
      assert l.key == ABUSE_KEY_SPACE + ScanKey(ABUSE_KEY_SPACE, l.key);
    } else if l.db == DB_ABUSE_IP && HasPrefix(l.key, ABUSE_IP_SPACE) {
      IpRoundTrip(ScanKey(ABUSE_IP_SPACE, l.key));
      assert l.key == ABUSE_IP_SPACE + ScanKey(ABUSE_IP_SPACE, l.key);
    }
  }

  /** The key that a scan shows for a Redis key. */
  function ScanKey(space: string, redisKey: string): string
    requires HasPrefix(redisKey, space)
  {
    redisKey[|space|..]
  }

  /** How a Redis call ended: `NilReply` is the expected "no such key", which counts as reachable. */
  datatype Reply = Fine | NilReply | TransportError

  /** Whether an upsert was acknowledged; a failed one may still have been written before the reply was lost. */
  datatype Upsert = Acked | Failed(written: bool)

  datatype Lookup = Lookup(limit: int, found: bool, failed: bool)

  /** The reply to the limit lookup; `parsed` is None when the stored field is not a number. */
  datatype LimitReply = Value(parsed: Option<int>) | NoLimit | LimitUnreachable

  /** What the caller is told: an unreadable limit is an error just like an unreachable Redis. */
  function Answer(reply: LimitReply): (l: Lookup)
    ensures l.failed ==> !l.found
  {
    match reply
    case Value(Some(limit)) => Lookup(limit, true, false)
    case NoLimit => Lookup(0, false, false)
    case _ => Lookup(0, false, true)
  }

  datatype ExistsReply = Count(n: nat) | ExistsUnreachable

  /** Reachability after a sequence of outcomes; the service starts optimistic. */
  function HealthAfter(outcomes: seq<bool>): bool {
    outcomes == [] || outcomes[|outcomes| - 1]
  }

  /** The outcomes with consecutive repeats removed, starting from `state`. */
  function Changes(state: bool, outcomes: seq<bool>): seq<bool>
    decreases outcomes
  {
    if outcomes == [] then []
    else if outcomes[0] == state then Changes(state, outcomes[1..])
    else [outcomes[0]] + Changes(outcomes[0], outcomes[1..])
  }

  lemma {:induction false} ChangesStep(state: bool, outcomes: seq<bool>, o: bool)
    ensures var last := if outcomes == [] then state else outcomes[|outcomes| - 1];
      Changes(state, outcomes + [o]) == Changes(state, outcomes) + if o == last then [] else [o]
    decreases outcomes
  {
    if outcomes != [] {
      assert (outcomes + [o])[1..] == outcomes[1..] + [o];
      ChangesStep(outcomes[0], outcomes[1..], o);
    }
  }

  /** The log alternates, beginning with the opposite of the start, and its length gives the current state. */
  lemma {:induction false} LogAlternates(state: bool, outcomes: seq<bool>)
    ensures var log := Changes(state, outcomes);
      && (forall i :: 0 <= i < |log| ==> (log[i] == state <==> i % 2 == 1))
      && ((if outcomes == [] then state else outcomes[|outcomes| - 1]) == state <==> |log| % 2 == 0)
    decreases outcomes
  {
    if outcomes != [] {
      LogAlternates(outcomes[0], outcomes[1..]);
    }
  }

  /** One reply of SCAN. */
  datatype ScanPage = Page(keys: seq<string>) | PageUnreachable

  /** The Redis keys of all pages, in order. */
  function PageKeys(pages: seq<ScanPage>): seq<string> {
    if pages == [] then []
    else
      var n := |pages| - 1;
      PageKeys(pages[..n]) + if pages[n].Page? then pages[n].keys else []
  }

  lemma {:induction false} PageKeysAreAll(pages: seq<ScanPage>, i: nat, key: string)
    requires i < |pages| && pages[i].Page? && key in pages[i].keys
    ensures key in PageKeys(pages)
  {
    if i < |pages| - 1 {
      PageKeysAreAll(pages[..|pages| - 1], i, key);
    }
  }

  /** The wrapper around the Redis clients. */
  class Store {
    var healthy: bool
    /** One line per transition: true for "recovered", false for "unhealthy". */
    var log: seq<bool>
    var records: Records
    /** Every outcome that was observed, in order. */
    ghost var outcomes: seq<bool>

    ghost predicate Valid()
      reads this
    {
      healthy == HealthAfter(outcomes) && log == Changes(true, outcomes)
    }

    constructor ()
      ensures Valid() && healthy && log == [] && outcomes == [] && records == map[]
    {
      healthy, log, records, outcomes := true, [], map[], [];
    }

    /** The flag is the parity of the log: it starts healthy, and each line is one change. */
    lemma HealthIsParity()
      requires Valid()
      ensures healthy <==> |log| % 2 == 0
    {
      LogAlternates(true, outcomes);
    }

    method CompareAndSwap(expected: bool, replacement: bool) returns (swapped: bool)
      modifies this`healthy
      ensures swapped <==> old(healthy) == expected
      ensures healthy == if swapped then replacement else old(healthy)
    {
      swapped := healthy == expected;
      if swapped {
        healthy := replacement;
      }
    }

    /** Called after every operation: the log stays the compressed history of outcomes. */
    method Observe(reply: Reply)
      requires Valid()
      modifies this`healthy, this`log, this`outcomes
      ensures Valid() && outcomes == old(outcomes) + [reply != TransportError]
      ensures healthy <==> reply.Fine? || reply.NilReply?
      ensures log == if healthy == old(healthy) then old(log) else old(log) + [healthy]
    {
      ChangesStep(true, outcomes, reply != TransportError);
      outcomes := outcomes + [reply != TransportError];
      if reply.Fine? || reply.NilReply? {
        var swapped := CompareAndSwap(false, true);
        if swapped {
          log := log + [true];
        }
        return;
      }
      var swapped := CompareAndSwap(true, false);
      if swapped {
        log := log + [false];
      }
    }

    /** A number that does not parse is an error of the lookup but not of Redis. */
    method LookupLimit(reply: LimitReply) returns (l: Lookup)
      requires Valid()
      modifies this`healthy, this`log, this`outcomes
      ensures Valid() && outcomes == old(outcomes) + [!reply.LimitUnreachable?]
      ensures healthy <==> !reply.LimitUnreachable?
      ensures match reply
        case Value(Some(limit)) => l.found && !l.failed && l.limit == limit
        case Value(None) => !l.found && l.failed
        case NoLimit => !l.found && !l.failed
        case LimitUnreachable => !l.found && l.failed
      ensures l == Answer(reply)
      ensures records == old(records)
    {
      Observe(match reply case Value(_) => Fine case NoLimit => NilReply case LimitUnreachable => TransportError);
      match reply
      case Value(Some(limit)) => return Lookup(limit, true, false);
      case Value(None) => return Lookup(0, false, true);
      case NoLimit => return Lookup(0, false, false);
      case LimitUnreachable => return Lookup(0, false, true);
    }

    method LimitExists(reply: ExistsReply) returns (exists_: bool, failed: bool)
      requires Valid()
      modifies this`healthy, this`log, this`outcomes
      ensures Valid() && outcomes == old(outcomes) + [!failed]
      ensures healthy <==> !reply.ExistsUnreachable?
      ensures failed <==> reply.ExistsUnreachable?
      ensures exists_ <==> reply.Count? && reply.n > 0
    {
      Observe(if reply.ExistsUnreachable? then TransportError else Fine);
      return reply.Count? && reply.n > 0, reply.ExistsUnreachable?;
    }

    method UpsertAbuse(location: Location, r: AbuseRecord, u: Upsert) returns (failed: bool)
      requires Valid()
      modifies this
      ensures Valid() && outcomes == old(outcomes) + [u.Acked?]
      ensures healthy <==> u.Acked?
      ensures failed <==> u.Failed?
      ensures records == if u.Acked? || u.written then old(records)[location := r] else old(records)
    {
      if u.Acked? || u.written {
        records := records[location := r];
      }
      Observe(if u.Acked? then Fine else TransportError);
      return u.Failed?;
    }

    /** A row of the listing: the original name and what is stored, or zeros once the key has expired. */
    ghost predicate Shows(db: int, space: string, redisKey: string, row: (string, AbuseRecord))
      reads this
    {
      && space + row.0 == redisKey
      && row.1 == if Location(db, redisKey) in records then records[Location(db, redisKey)] else NO_FIELDS
    }

    ghost predicate IsShown(db: int, space: string, redisKey: string, out: seq<(string, AbuseRecord)>)
      reads this
    {
      exists n :: 0 <= n < |out| && Shows(db, space, redisKey, out[n])
    }

    lemma EveryKeyIsShown(db: int, space: string, pages: seq<ScanPage>, out: seq<(string, AbuseRecord)>)
      requires forall i :: 0 <= i < |pages| ==> pages[i].Page?
      requires |out| == |PageKeys(pages)|
      requires forall i :: 0 <= i < |out| ==> Shows(db, space, PageKeys(pages)[i], out[i])
      ensures forall i, j :: 0 <= i < |pages| && 0 <= j < |pages[i].keys| ==>
        IsShown(db, space, pages[i].keys[j], out)
    {
      forall i, j | 0 <= i < |pages| && 0 <= j < |pages[i].keys|
        ensures IsShown(db, space, pages[i].keys[j], out)
      {
        PageKeysAreAll(pages, i, pages[i].keys[j]);
        var n :| 0 <= n < |PageKeys(pages)| && PageKeys(pages)[n] == pages[i].keys[j];
        assert Shows(db, space, pages[i].keys[j], out[n]);
      }
    }

    /** Lists the records behind the Redis keys that SCAN returned for the keyspace `space`, page by page; a page
        that fails ends the listing with an error. */
    method ScanAbuse(db: int, space: string, pages: seq<ScanPage>)
      returns (out: seq<(string, AbuseRecord)>, failed: bool)
      requires Valid()
      requires forall i, j :: 0 <= i < |pages| && pages[i].Page? && 0 <= j < |pages[i].keys| ==>
        HasPrefix(pages[i].keys[j], space)
      modifies this`healthy, this`log, this`outcomes
      ensures Valid() && outcomes == old(outcomes) + [!failed]
      ensures healthy <==> !failed
      ensures failed <==> exists i :: 0 <= i < |pages| && pages[i].PageUnreachable?
      ensures failed ==> out == []
      ensures !failed ==> |out| == |PageKeys(pages)|
      ensures !failed ==> forall i :: 0 <= i < |out| ==> Shows(db, space, PageKeys(pages)[i], out[i])
      ensures !failed ==> forall i, j :: 0 <= i < |pages| && 0 <= j < |pages[i].keys| ==>
        IsShown(db, space, pages[i].keys[j], out)
    {
      out := [];
      for n := 0 to |pages|
        invariant Valid() && outcomes == old(outcomes)
        invariant forall i :: 0 <= i < n ==> pages[i].Page?
        invariant |out| == |PageKeys(pages[..n])|
        invariant forall i :: 0 <= i < |out| ==> Shows(db, space, PageKeys(pages[..n])[i], out[i])
      {
        assert pages[..n + 1][..n] == pages[..n];
        if pages[n].PageUnreachable? {
          Observe(TransportError);
          return [], true;
        }
        var rows := ReadPage(db, space, pages[n].keys);
        out := out + rows;
      }
      assert pages[..|pages|] == pages;
      Observe(Fine);
      EveryKeyIsShown(db, space, pages, out);
      return out, false;
    }

    method ReadPage(db: int, space: string, redisKeys: seq<string>) returns (rows: seq<(string, AbuseRecord)>)
      requires forall i :: 0 <= i < |redisKeys| ==> HasPrefix(redisKeys[i], space)
      ensures |rows| == |redisKeys|
      ensures forall i :: 0 <= i < |rows| ==> Shows(db, space, redisKeys[i], rows[i])
    {
      rows := [];
      for n := 0 to |redisKeys|
        invariant |rows| == n
        invariant forall i :: 0 <= i < n ==> Shows(db, space, redisKeys[i], rows[i])
      {
        var location := Location(db, redisKeys[n]);
        var r := if location in records then records[location] else NO_FIELDS;
        rows := rows + [(ScanKey(space, redisKeys[n]), r)];
      }
    }
  }
}
