/**
 * The two stores the handlers write to, as values: S3 buckets of objects
 * and DynamoDB tables of items. A request to either can fail; whether it
 * does is an input (`Faults`), since it depends on the network and on the
 * service. The class `Aws` holds the stores and performs the requests the
 * S3 and DynamoDB wrappers make.
 */
module Stores {
  import opened Py

  /** What an S3 object holds: the value serialised as one JSON document, or as JSON Lines. */
  datatype Body = Json(doc: Value) | JsonLines(lines: seq<Value>)

  datatype S3Object = S3Object(body: Body, metadata: map<string, string>)

  type Bucket = map<string, S3Object>

  /** A DynamoDB attribute in its wire form, `{'S': s}` or `{'N': n}`. */
  datatype Attr = S(s: string) | N(n: string)

  type Item = map<string, Attr>

  /** A table's items by the value of their key attribute. */
  type Table = map<string, Item>

  datatype Cloud = Cloud(buckets: map<string, Bucket>, tables: map<string, Table>)

  /**
   * Which requests of one handler invocation fail: `true` (or the message
   * of the ClientError raised) for a failing request. A handler makes each
   * kind of request at most once.
   */
  datatype Faults = Faults(getItem: bool, headObject: bool, putObject: Option<string>, putItem: bool)

  const NoFaults := Faults(false, false, None, false)

  const NoSuchBucket: string := "An error occurred (NoSuchBucket) when calling the PutObject operation: The specified bucket does not exist"
  const NoSuchTable: string := "An error occurred (ResourceNotFoundException): Requested resource not found"

  /**
   * `S3Service.object_exists(key)`: `head_object` succeeds only for an
   * object that is there; every ClientError, a 404 or not, reads as "absent".
   */
  predicate HeadObject(c: Cloud, bucket: string, key: string, fails: bool) {
    !fails && bucket in c.buckets && key in c.buckets[bucket]
  }

  /** `S3Service.put_object` (and the JSON variants built on it): the object under `key` is replaced, or a ClientError is raised. */
  function PutObject(c: Cloud, bucket: string, key: string, obj: S3Object, fault: Option<string>): (r: Result<Cloud>)
    ensures r.Ok? <==> fault.None? && bucket in c.buckets
    ensures r.Err? ==> r.exc.cls == ClientError
    ensures r.Ok? ==> r.value.tables == c.tables && r.value.buckets.Keys == c.buckets.Keys
    ensures r.Ok? ==> r.value.buckets[bucket] == c.buckets[bucket][key := obj]
    ensures r.Ok? ==> forall b :: b in c.buckets && b != bucket ==> r.value.buckets[b] == c.buckets[b]
  {
    if fault.Some? then Err(Exc(ClientError, fault.value))
    else if bucket !in c.buckets then Err(Exc(ClientError, NoSuchBucket))
    else Ok(c.(buckets := c.buckets[bucket := c.buckets[bucket][key := obj]]))
  }

  /** `DynamoDBService.get_item`: the item under `key`, `None` when there is none, or a ClientError. */
  function GetTableItem(c: Cloud, table: string, key: string, fails: bool): (r: Result<Option<Item>>)
    ensures r.Ok? <==> !fails && table in c.tables
    ensures r.Ok? ==> (r.value.Some? <==> key in c.tables[table])
    ensures r.Ok? && r.value.Some? ==> r.value.value == c.tables[table][key]
  {
    if fails then Err(Exc(ClientError, "get_item failed"))
    else if table !in c.tables then Err(Exc(ClientError, NoSuchTable))
    else if key in c.tables[table] then Ok(Some(c.tables[table][key]))
    else Ok(None)
  }

  /** `DynamoDBService.put_item`: the item under `key` is replaced, or a ClientError is raised. */
  function PutTableItem(c: Cloud, table: string, key: string, item: Item, fails: bool): (r: Result<Cloud>)
    ensures r.Ok? <==> !fails && table in c.tables
    ensures r.Ok? ==> r.value.buckets == c.buckets && r.value.tables.Keys == c.tables.Keys
    ensures r.Ok? ==> r.value.tables[table] == c.tables[table][key := item]
    ensures r.Ok? ==> forall t :: t in c.tables && t != table ==> r.value.tables[t] == c.tables[t]
  {
    if fails then Err(Exc(ClientError, "put_item failed"))
    else if table !in c.tables then Err(Exc(ClientError, NoSuchTable))
    else Ok(c.(tables := c.tables[table := c.tables[table][key := item]]))
  }

  // ---------------------------------------------------------------------------
  // Frames: what a sequence of requests may have changed

  /** `m'` is `m` with at most the entry `k` added or replaced. */
  predicate Alike<V(==)>(m: map<string, V>, m': map<string, V>, k: string) {
    m' == m || (k in m' && m' == m[k := m'[k]])
  }

  /** `Alike` pointwise: no key is lost, only `k` may be new, and every other key keeps its value. */
  lemma AlikeMeans<V>(m: map<string, V>, m': map<string, V>, k: string)
    ensures Alike(m, m', k) <==>
      m.Keys <= m'.Keys <= m.Keys + {k} && forall j :: j in m && j != k ==> m'[j] == m[j]
  {
    if m.Keys <= m'.Keys <= m.Keys + {k} && (forall j :: j in m && j != k ==> m'[j] == m[j]) {
      if k in m' {
        assert m' == m[k := m'[k]];
      } else {
        assert m' == m;
      }
    }
  }

  /** The buckets of `c'` are those of `c`, except perhaps for the object `key` of `bucket`. */
  predicate BucketsAlike(c: Cloud, c': Cloud, bucket: string, key: string) {
    c'.buckets == c.buckets
    || (bucket in c.buckets && bucket in c'.buckets
        && c'.buckets == c.buckets[bucket := c'.buckets[bucket]] && Alike(c.buckets[bucket], c'.buckets[bucket], key))
  }

  /** The tables of `c'` are those of `c`, except perhaps for the item `key` of `table`. */
  predicate TablesAlike(c: Cloud, c': Cloud, table: string, key: string) {
    c'.tables == c.tables
    || (table in c.tables && table in c'.tables
        && c'.tables == c.tables[table := c'.tables[table]] && Alike(c.tables[table], c'.tables[table], key))
  }

  /** A successful `put_object` changes one object and nothing else. */
  lemma PutObjectTouchesOnlyObject(c: Cloud, bucket: string, key: string, obj: S3Object, fault: Option<string>)
    requires PutObject(c, bucket, key, obj, fault).Ok?
    ensures var c' := PutObject(c, bucket, key, obj, fault).value;
      c'.tables == c.tables && BucketsAlike(c, c', bucket, key) && c'.buckets[bucket][key] == obj
  {
  }

  /** A successful `put_item` changes one item and nothing else. */
  lemma PutItemTouchesOnlyItem(c: Cloud, table: string, key: string, item: Item, fails: bool)
    requires PutTableItem(c, table, key, item, fails).Ok?
    ensures var c' := PutTableItem(c, table, key, item, fails).value;
      c'.buckets == c.buckets && TablesAlike(c, c', table, key) && c'.tables[table][key] == item
  {
  }

  /** Putting the object a key already holds changes nothing. */
  lemma PutSameObject(c: Cloud, bucket: string, key: string, obj: S3Object, fault: Option<string>)
    requires bucket in c.buckets && key in c.buckets[bucket] && c.buckets[bucket][key] == obj
    ensures PutObject(c, bucket, key, obj, fault).Ok? ==> PutObject(c, bucket, key, obj, fault).value == c
  {
    assert c.buckets[bucket][key := obj] == c.buckets[bucket];
    assert c.buckets[bucket := c.buckets[bucket]] == c.buckets;
  }

  /** The stores, updated in place by the requests. */
  class Aws {
    var buckets: map<string, Bucket>
    var tables: map<string, Table>

    function State(): Cloud
      reads this
    {
      Cloud(buckets, tables)
    }

    constructor (c: Cloud)
      ensures State() == c
    {
      buckets := c.buckets;
      tables := c.tables;
    }

    method ObjectExists(bucket: string, key: string, fails: bool) returns (b: bool)
      ensures b == HeadObject(State(), bucket, key, fails)
    {
      b := !fails && bucket in buckets && key in buckets[bucket];
    }

    method Put(bucket: string, key: string, obj: S3Object, fault: Option<string>) returns (r: Result<()>)
      modifies this
      ensures var p := PutObject(old(State()), bucket, key, obj, fault);
        && (r.Ok? <==> p.Ok?)
        && (p.Err? ==> r.exc == p.exc && State() == old(State()))
        && (p.Ok? ==> State() == p.value)
    {
      if fault.Some? {
        return Err(Exc(ClientError, fault.value));
      }
      if bucket !in buckets {
        return Err(Exc(ClientError, NoSuchBucket));
      }
      buckets := buckets[bucket := buckets[bucket][key := obj]];
      r := Ok(());
    }

    method GetItem(table: string, key: string, fails: bool) returns (r: Result<Option<Item>>)
      ensures r == GetTableItem(State(), table, key, fails)
    {
      if fails {
        return Err(Exc(ClientError, "get_item failed"));
      }
      if table !in tables {
        return Err(Exc(ClientError, NoSuchTable));
      }
      r := if key in tables[table] then Ok(Some(tables[table][key])) else Ok(None);
    }

    method PutItem(table: string, key: string, item: Item, fails: bool) returns (r: Result<()>)
      modifies this
      ensures var p := PutTableItem(old(State()), table, key, item, fails);
        && (r.Ok? <==> p.Ok?)
        && (p.Err? ==> r.exc == p.exc && State() == old(State()))
        && (p.Ok? ==> State() == p.value)
    {
      if fails {
        return Err(Exc(ClientError, "put_item failed"));
      }
      if table !in tables {
        return Err(Exc(ClientError, NoSuchTable));
      }
      tables := tables[table := tables[table][key := item]];
      r := Ok(());
    }
  }
}
