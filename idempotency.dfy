/**
 * `IdempotencyService` (`services/idempotency_service.py`): keys derived
 * from an operation and an identifier, a `check` that reports whether an
 * operation was recorded as complete, and a `mark_complete` that records it
 * with an expiry time. Both fail open: a store error never reaches the
 * caller. The clock reading `now` is an input, in microseconds since the
 * Unix epoch.
 */
module Idempotency {
  import opened Py
  import opened Dates
  import opened Sha256
  import opened Stores

  /** `generate_key(operation, identifier)`: the SHA-256 hex digest of `operation:identifier`. */
  function GenerateKey(operation: string, identifier: string): (k: string)
    ensures |k| == 64 && IsLowerHex(k)
  {
    HexDigest(operation + ":" + identifier)
  }

  /** The key depends only on the joined string: pairs that join alike share a key. */
  lemma SeparatorCollision(a: string, b: string, c: string, d: string)
    requires a + ":" + b == c + ":" + d
    ensures GenerateKey(a, b) == GenerateKey(c, d)
  {
  }

  /** Moving a `:` from the operation into the identifier gives a different pair with the same key. */
  lemma SeparatorShift(a: string, b: string, c: string)
    ensures (a + ":" + b, c) != (a, b + ":" + c)
    ensures GenerateKey(a + ":" + b, c) == GenerateKey(a, b + ":" + c)
  {
    assert |a + ":" + b| > |a|;
    assert (a + ":" + b) + ":" + c == a + ":" + (b + ":" + c);
    SeparatorCollision(a + ":" + b, c, a, b + ":" + c);
  }

  /** `if not self.table_name`: a table name that is None or empty switches the service off. */
  predicate Configured(tableName: Option<string>) {
    tableName.Some? && tableName.value != ""
  }

  /** What `check(key)` returns: whether `get_item` produced a truthy (non-empty) item. */
  predicate Completed(c: Cloud, tableName: Option<string>, key: string, fails: bool) {
    Configured(tableName)
    && match GetTableItem(c, tableName.value, key, fails)
       case Ok(Some(item)) => |item| > 0
       case _ => false
  }

  const DefaultTtlHours: int := 24
  const MicrosPerHour: int := 3600000000

  /** `int((now + timedelta(hours=ttl_hours)).timestamp())`: whole seconds, truncated toward zero. */
  function TtlTimestamp(now: int, ttlHours: int): int {
    TruncSeconds(now + ttlHours * MicrosPerHour)
  }

  /** The item `mark_complete` puts. */
  function CompletionItem(key: string, ttl: int, completedAt: string): (item: Item)
    ensures item.Keys == {"idempotency_key", "ttl", "completed_at"}
    ensures item["idempotency_key"] == S(key) && item["ttl"] == N(IntToString(ttl)) && item["completed_at"] == S(completedAt)
  {
    map["idempotency_key" := S(key), "ttl" := N(IntToString(ttl)), "completed_at" := S(completedAt)]
  }

  /**
   * The stores after `mark_complete(key, ttl_hours)` at instant `now`. An
   * unconfigured service does nothing; an expiry beyond the range of
   * `datetime` raises OverflowError and a failing `put_item` raises
   * ClientError, and both are swallowed.
   */
  function MarkedComplete(c: Cloud, tableName: Option<string>, key: string, ttlHours: int, now: int, fails: bool): Cloud
    requires ValidInstant(now)
  {
    if !Configured(tableName) then c
    else if !ValidInstant(now + ttlHours * MicrosPerHour) then c
    else
      match PutTableItem(c, tableName.value, key, CompletionItem(key, TtlTimestamp(now, ttlHours), IsoUtc(now)), fails)
      case Ok(c') => c'
      case Err(_) => c
  }

  /** The service object; its DynamoDB client is the shared `Aws` stores. */
  class IdempotencyService {
    const tableName: Option<string>
    const dynamodb: Aws

    constructor (tableName: Option<string>, dynamodb: Aws)
      ensures this.tableName == tableName && this.dynamodb == dynamodb
    {
      this.tableName := tableName;
      this.dynamodb := dynamodb;
    }

    /** `check(idempotency_key)`: changes nothing; any failure reads as "not completed". */
    method Check(key: string, fails: bool) returns (done: bool)
      ensures done == Completed(dynamodb.State(), tableName, key, fails)
    {
      if !Configured(tableName) {
        return false;
      }
      var item := dynamodb.GetItem(tableName.value, key, fails);
      match item
      case Err(_) =>
        done := false;
      case Ok(found) =>
        done := found.Some? && |found.value| > 0;
    }

    /** `mark_complete(idempotency_key, ttl_hours)`: never raises. */
    method MarkComplete(key: string, ttlHours: int, now: int, fails: bool)
      requires ValidInstant(now)
      modifies dynamodb
      ensures dynamodb.State() == MarkedComplete(old(dynamodb.State()), tableName, key, ttlHours, now, fails)
    {
      if !Configured(tableName) {
        return;
      }
      var later := now + ttlHours * MicrosPerHour;
      if !ValidInstant(later) {
        return;
      }
      var ttl := TruncSeconds(later);
      var item := CompletionItem(key, ttl, IsoUtc(now));
      var _ := dynamodb.PutItem(tableName.value, key, item, fails);
    }
  }

  // ---------------------------------------------------------------------------
  // Properties

  /** Without a table name, `check` is false and `mark_complete` leaves the stores alone. */
  lemma Unconfigured(c: Cloud, tableName: Option<string>, key: string, ttlHours: int, now: int, fails: bool)
    requires ValidInstant(now) && !Configured(tableName)
    ensures !Completed(c, tableName, key, fails)
    ensures MarkedComplete(c, tableName, key, ttlHours, now, fails) == c
  {
  }

  /**
   * With a table name, `check` is true exactly when the request succeeds
   * and finds a non-empty item; a failing request, a missing table and a
   * missing item all read as false.
   */
  lemma CheckReadsItem(c: Cloud, t: string, key: string, fails: bool)
    requires t != ""
    ensures Completed(c, Some(t), key, fails) <==>
      !fails && t in c.tables && key in c.tables[t] && |c.tables[t][key]| > 0
  {
  }

  /** `check` never looks at `ttl`: an item whose expiry is long past still counts as completed. */
  lemma ExpiredStillCompleted(c: Cloud, t: string, key: string, item: Item, ttl: int)
    requires t != "" && t in c.tables
    ensures Completed(c.(tables := c.tables[t := c.tables[t][key := item["ttl" := N(IntToString(ttl))]]]), Some(t), key, false)
  {
    var item' := item["ttl" := N(IntToString(ttl))];
    assert "ttl" in item';
  }

  /**
   * `mark_complete` writes one item, under `key` in its own table, holding
   * the key, the expiry and the completion time; nothing else changes.
   */
  lemma MarkWritesOneItem(c: Cloud, t: string, key: string, ttlHours: int, now: int)
    requires ValidInstant(now) && ValidInstant(now + ttlHours * MicrosPerHour)
    requires t != "" && t in c.tables
    ensures var c' := MarkedComplete(c, Some(t), key, ttlHours, now, false);
      && c'.buckets == c.buckets
      && c'.tables.Keys == c.tables.Keys
      && (forall u :: u in c.tables && u != t ==> c'.tables[u] == c.tables[u])
      && c'.tables[t].Keys == c.tables[t].Keys + {key}
      && (forall k :: k in c.tables[t] && k != key ==> c'.tables[t][k] == c.tables[t][k])
      && c'.tables[t][key] == CompletionItem(key, TtlTimestamp(now, ttlHours), IsoUtc(now))
  {
    var p := PutTableItem(c, t, key, CompletionItem(key, TtlTimestamp(now, ttlHours), IsoUtc(now)), false);
    assert MarkedComplete(c, Some(t), key, ttlHours, now, false) == p.value;
  }

  /** Whatever fails, `mark_complete` leaves the buckets alone and writes at most its own item. */
  lemma MarkTouchesOnlyItem(c: Cloud, t: string, key: string, ttlHours: int, now: int, fails: bool)
    requires ValidInstant(now)
    ensures var c' := MarkedComplete(c, Some(t), key, ttlHours, now, fails);
      c'.buckets == c.buckets && TablesAlike(c, c', t, key)
  {
    if t != "" && ValidInstant(now + ttlHours * MicrosPerHour) {
      var item := CompletionItem(key, TtlTimestamp(now, ttlHours), IsoUtc(now));
      if PutTableItem(c, t, key, item, fails).Ok? {
        PutItemTouchesOnlyItem(c, t, key, item, fails);
      }
    }
  }

  /** After a successful `mark_complete`, `check` on the same key and table is true. */
  lemma MarkThenCheck(c: Cloud, tableName: Option<string>, key: string, ttlHours: int, now: int)
    requires ValidInstant(now) && ValidInstant(now + ttlHours * MicrosPerHour)
    requires Configured(tableName) && tableName.value in c.tables
    ensures Completed(MarkedComplete(c, tableName, key, ttlHours, now, false), tableName, key, false)
  {
    var item := CompletionItem(key, TtlTimestamp(now, ttlHours), IsoUtc(now));
    assert "ttl" in item;
  }

  /** From the epoch on, the expiry is the current whole second plus `ttl_hours` hours. */
  lemma TtlIsHoursLater(now: int, ttlHours: int)
    requires now >= 0 && ttlHours >= 0
    ensures TtlTimestamp(now, ttlHours) == now / MicrosPerSecond + 3600 * ttlHours
  {
    var shifted := now + ttlHours * MicrosPerHour;
    assert shifted == now + (3600 * ttlHours) * MicrosPerSecond;
    DivShift(now, 3600 * ttlHours);
  }

  /** Adding whole seconds shifts the second count by as many. */
  lemma DivShift(a: int, k: int)
    requires a >= 0 && k >= 0
    ensures (a + k * MicrosPerSecond) / MicrosPerSecond == a / MicrosPerSecond + k
  {
    var q, r := a / MicrosPerSecond, a % MicrosPerSecond;
    assert a + k * MicrosPerSecond == (q + k) * MicrosPerSecond + r;
  }
}
