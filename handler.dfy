/**
 * The storage handlers of the workflow (`handler.py`): `dump_post_to_bucket`
 * writes a raw post once, guarded by the idempotency table and by an
 * existence test on the bucket; `save_sessions_to_bucket` normalises the
 * records' dates and writes the week's records once under a path named by
 * the week's first and last dates; `clean_sessions_df_records` is the
 * decorated entry point of the cleaning step.
 *
 * What `get_config()` returned is an input of each handler (the cache is
 * `Configuration.ConfigCache`); so are the clock, the correlation id and
 * which store requests fail.
 */
module Handler {
  import opened Py
  import opened Dates
  import opened Stores
  import opened Idempotency
  import Configuration
  import Transforms
  import Decorators

  /** What a handler invocation does: its outcome and the stores it leaves. */
  datatype Run = Run(result: Result<Value>, cloud: Cloud)

  // ---------------------------------------------------------------------------
  // dump_post_to_bucket

  const DumpOperation: string := "dump_post_to_bucket"

  /** `'raw/{posted}__{slug}__raw.json'`: `post["date"]` is parsed before `post["slug"]` is read. */
  function RawPath(post: Value): (r: Result<string>)
    ensures r.Ok? ==> |r.value| >= 4 && r.value[..4] == "raw/"
  {
    var date :- GetItem(post, "date");
    var posted :- ParseDate(date);
    var slug :- GetItem(post, "slug");
    var name := FormatDate(posted.date) + "__" + PyStr(slug) + "__raw.json";
    assert ("raw/" + name)[..4] == "raw/";
    Ok("raw/" + name)
  }

  /** `post["title"]["rendered"]`, which the log message of every branch formats. */
  function Title(post: Value): Result<Value> {
    var title :- GetItem(post, "title");
    GetItem(title, "rendered")
  }

  function DumpMetadata(key: string): map<string, string> {
    map["idempotency_key" := key, "operation" := DumpOperation]
  }

  /**
   * `dump_post_to_bucket(post)` on the stores `c` at instant `now`: check
   * the idempotency table, then the bucket, then write the post and record
   * the key. Every branch that succeeds returns the post.
   */
  function DumpPost(c: Cloud, post: Value, config: Result<Configuration.Config>, now: int, f: Faults): Run
    requires ValidInstant(now)
  {
    if config.Err? then Run(Err(config.exc), c)
    else
      var path := RawPath(post);
      if path.Err? then Run(Err(path.exc), c)
      else
        var bucket := config.value.invictusBucket;
        var table := Some(config.value.idempotencyTable);
        var key := GenerateKey(DumpOperation, path.value);
        var title := Title(post);
        if Completed(c, table, key, f.getItem) then Run(if title.Err? then Err(title.exc) else Ok(post), c)
        else if title.Err? then Run(Err(title.exc), c)
        else if HeadObject(c, bucket, path.value, f.headObject) then
          Run(Ok(post), MarkedComplete(c, table, key, DefaultTtlHours, now, f.putItem))
        else
          var put := PutObject(c, bucket, path.value, S3Object(Json(post), DumpMetadata(key)), f.putObject);
          if put.Err? then Run(Err(put.exc), c)
          else Run(Ok(post), MarkedComplete(put.value, table, key, DefaultTtlHours, now, f.putItem))
  }

  /** `dump_post_to_bucket`, step by step on the shared stores. */
  method DumpPostToBucket(aws: Aws, post: Value, config: Result<Configuration.Config>, now: int, f: Faults)
    returns (r: Result<Value>)
    requires ValidInstant(now)
    modifies aws
    ensures Run(r, aws.State()) == DumpPost(old(aws.State()), post, config, now, f)
  {
    var cfg :- config;
    var bucketPath :- RawPath(post);
    var idempotency := new IdempotencyService(Some(cfg.idempotencyTable), aws);
    var key := GenerateKey(DumpOperation, bucketPath);

    var done := idempotency.Check(key, f.getItem);
    if done {
      var title :- Title(post);
      return Ok(post);
    }
    var stored := aws.ObjectExists(cfg.invictusBucket, bucketPath, f.headObject);
    if stored {
      var title :- Title(post);
      idempotency.MarkComplete(key, DefaultTtlHours, now, f.putItem);
      return Ok(post);
    }
    var title :- Title(post);
    var put :- aws.Put(cfg.invictusBucket, bucketPath, S3Object(Json(post), DumpMetadata(key)), f.putObject);
    idempotency.MarkComplete(key, DefaultTtlHours, now, f.putItem);
    r := Ok(post);
  }

  // ---------------------------------------------------------------------------
  // save_sessions_to_bucket

  const NoDatesMessage: string := "No dates found in session records"

  /** `"date" in record` for a record that is a dict. */
  predicate Dated(record: Value) {
    record.Dict? && "date" in Keys(record.entries)
  }

  /**
   * One turn of the date loop: a record with a `date` has it parsed, noted
   * and rewritten in place as `YYYY-MM-DD`; any other record is left as it is.
   */
  function RewriteRecord(record: Value): (r: Result<(Value, Option<DateTime>)>)
    ensures r.Ok? ==> (r.value.1.Some? <==> Dated(record))
    ensures r.Ok? && r.value.1.None? ==> r.value.0 == record
    ensures r.Ok? && r.value.1.Some? ==>
      && record.Dict? && Lookup(record.entries, "date").Some?
      && ParseDate(Lookup(record.entries, "date").value) == Ok(r.value.1.value)
      && r.value.0 == Dict(Store(record.entries, "date", Str(FormatDate(r.value.1.value.date))))
    ensures r.Ok? && r.value.1.Some? ==> ValidDateTime(r.value.1.value) && r.value.1.value.date.year >= 1000
  {
    var hasDate :- Contains(record, "date");
    if !hasDate then Ok((record, None))
    else
      var value :- GetItem(record, "date");
      var parsed :- ParseDate(value);
      Ok((Dict(Store(record.entries, "date", Str(FormatDate(parsed.date)))), Some(parsed)))
  }

  /** The records after the loop, in order. */
  function Rewritten(done: seq<(Value, Option<DateTime>)>): (vs: seq<Value>)
    ensures |vs| == |done| && forall i :: 0 <= i < |done| ==> vs[i] == done[i].0
  {
    seq(|done|, i requires 0 <= i < |done| => done[i].0)
  }

  /** The list `dates` after the loop: the parsed dates of the dated records, in order. */
  function FoundDates(done: seq<(Value, Option<DateTime>)>): (ds: seq<DateTime>)
    ensures |ds| <= |done|
  {
    if |done| == 0 then []
    else
      var ds := FoundDates(done[..|done| - 1]);
      match done[|done| - 1].1
      case Some(t) => ds + [t]
      case None => ds
  }

  /** One more turn of the loop appends its date, if it found one, and its record. */
  lemma FoundDatesStep(done: seq<(Value, Option<DateTime>)>, s: (Value, Option<DateTime>))
    ensures FoundDates(done + [s]) == FoundDates(done) + (if s.1.Some? then [s.1.value] else [])
    ensures Rewritten(done + [s]) == Rewritten(done) + [s.0]
  {
    assert (done + [s])[..|done|] == done;
  }

  /** Every date the loop found was found on some record. */
  lemma {:induction false} FoundDatesFrom(done: seq<(Value, Option<DateTime>)>, j: nat)
    requires j < |FoundDates(done)|
    ensures exists i :: 0 <= i < |done| && done[i].1 == Some(FoundDates(done)[j])
  {
    var front := done[..|done| - 1];
    var ds := FoundDates(front);
    if j < |ds| {
      FoundDatesFrom(front, j);
      var i :| 0 <= i < |front| && front[i].1 == Some(ds[j]);
      assert done[i] == front[i];
    } else {
      assert done[|done| - 1].1 == Some(FoundDates(done)[j]);
    }
  }

  /** What the loop and the two `min`/`max` calls produce: the records to return and write, and the week's bounds. */
  datatype Week = Week(records: Value, lines: seq<Value>, start: Date, end: Date)

  predicate ValidWeek(w: Week) {
    ValidDate(w.start) && ValidDate(w.end)
  }

  /** Every date the loop notes is a parsed one, hence valid. */
  predicate ParsedDates(done: seq<(Value, Option<DateTime>)>) {
    forall i :: 0 <= i < |done| && done[i].1.Some? ==> ValidDateTime(done[i].1.value)
  }

  /** Lines 98-126: unwrap the records, rewrite their dates, and bound the week. */
  function RewriteWeek(event: Value): (r: Result<Week>)
    ensures r.Ok? ==> ValidWeek(r.value)
  {
    var source :- Transforms.UnwrapRecords(event);
    var items :- Iterate(source);
    var done :- MapAll(RewriteRecord, items);
    var dates := FoundDates(done);
    if |dates| == 0 then Err(Exc(ValueError, NoDatesMessage))
    else
      assert ParsedDates(done);
      var first, last := Earliest(dates), Latest(dates);
      assert ValidDateTime(first) && ValidDateTime(last) by {
        forall j | 0 <= j < |dates| ensures ValidDateTime(dates[j]) {
          FoundDatesFrom(done, j);
        }
      }
      Ok(Week(if source.List? then List(Rewritten(done)) else source, Rewritten(done), first.date, last.date))
  }

  /** `'weekly/{start_date}__{end_date}--5-day-weightlifting-program.json'` */
  function WeeklyPath(start: Date, end: Date): (r: string)
    requires ValidDate(start) && ValidDate(end)
    ensures |r| >= 7 && r[..7] == "weekly/"
  {
    var r := "weekly/" + FormatDate(start) + "__" + FormatDate(end) + "--5-day-weightlifting-program.json";
    assert r[..7] == "weekly/";
    r
  }

  /** `save_sessions_to_bucket(event)` on the stores `c`. */
  function SaveSessions(c: Cloud, event: Value, config: Result<Configuration.Config>, f: Faults): Run {
    if config.Err? then Run(Err(config.exc), c)
    else
      var week := RewriteWeek(event);
      if week.Err? then Run(Err(week.exc), c)
      else
        var w := week.value;
        var bucket := config.value.invictusBucket;
        var path := WeeklyPath(w.start, w.end);
        var response := Ok(Dict([("records", w.records)]));
        if HeadObject(c, bucket, path, f.headObject) then Run(response, c)
        else
          var put := PutObject(c, bucket, path, S3Object(JsonLines(w.lines), map[]), f.putObject);
          if put.Err? then Run(Err(put.exc), c) else Run(response, put.value)
  }

  /** One turn of the date loop: it stops the comprehension with its error, or extends it by one record. */
  lemma RewriteStep(items: seq<Value>, n: nat, done: seq<(Value, Option<DateTime>)>, step: Result<(Value, Option<DateTime>)>)
    requires n < |items| && MapAll(RewriteRecord, items[..n]) == Ok(done) && step == RewriteRecord(items[n])
    ensures step.Err? ==> MapAll(RewriteRecord, items) == Err(step.exc)
    ensures step.Ok? ==> MapAll(RewriteRecord, items[..n + 1]) == Ok(done + [step.value])
    ensures step.Ok? ==> FoundDates(done + [step.value]) == FoundDates(done) + (if step.value.1.Some? then [step.value.1.value] else [])
    ensures step.Ok? ==> Rewritten(done + [step.value]) == Rewritten(done) + [step.value.0]
  {
    if step.Err? {
      MapAllStops(RewriteRecord, items, n);
    } else {
      MapAllExtends(RewriteRecord, items, n, done);
      FoundDatesStep(done, step.value);
    }
  }

  /** The loop of lines 114-120 over the iterated records. */
  method RewriteDates(items: seq<Value>) returns (r: Result<(seq<Value>, seq<DateTime>)>)
    ensures var m := MapAll(RewriteRecord, items);
      && (r.Ok? <==> m.Ok?)
      && (m.Err? ==> r.exc == m.exc)
      && (m.Ok? ==> r.value == (Rewritten(m.value), FoundDates(m.value)))
  {
    var dates: seq<DateTime> := [];
    var lines: seq<Value> := [];
    ghost var done: seq<(Value, Option<DateTime>)> := [];
    var n := 0;
    while n < |items|
      invariant 0 <= n <= |items|
      invariant MapAll(RewriteRecord, items[..n]) == Ok(done)
      invariant dates == FoundDates(done) && lines == Rewritten(done)
    {
      var step := RewriteRecord(items[n]);
      RewriteStep(items, n, done, step);
      if step.Err? {
        return Err(step.exc);
      }
      var (record, found) := step.value;
      if found.Some? {
        dates := dates + [found.value];
      }
      lines := lines + [record];
      done := done + [step.value];
      n := n + 1;
    }
    assert items[..|items|] == items;
    r := Ok((lines, dates));
  }

  /** `save_sessions_to_bucket` on the shared stores. */
  method SaveSessionsToBucket(aws: Aws, event: Value, config: Result<Configuration.Config>, f: Faults)
    returns (r: Result<Value>)
    modifies aws
    ensures Run(r, aws.State()) == SaveSessions(old(aws.State()), event, config, f)
  {
    var cfg :- config;
    var records :- Transforms.UnwrapRecords(event);
    var items :- Iterate(records);

    var rewritten :- RewriteDates(items);
    var (lines, dates) := rewritten;
    if |dates| == 0 {
      return Err(Exc(ValueError, NoDatesMessage));
    }
    ghost var week := RewriteWeek(event);
    var startDate := Earliest(dates).date;
    var endDate := Latest(dates).date;
    assert week.Ok? && week.value.start == startDate && week.value.end == endDate;
    var bucketPath := WeeklyPath(startDate, endDate);
    var response := Dict([("records", if records.List? then List(lines) else records)]);

    var stored := aws.ObjectExists(cfg.invictusBucket, bucketPath, f.headObject);
    if stored {
      return Ok(response);
    }
    var put :- aws.Put(cfg.invictusBucket, bucketPath, S3Object(JsonLines(lines), map[]), f.putObject);
    r := Ok(response);
  }

  // ---------------------------------------------------------------------------
  // The decorated handlers

  /** The `lambda_handler` decorator around `dump_post_to_bucket`: the body's writes stay; its outcome is reshaped. */
  function DumpPostHandler(c: Cloud, post: Value, config: Result<Configuration.Config>, now: int, f: Faults, correlationId: string): Run
    requires ValidInstant(now)
  {
    var run := DumpPost(c, post, config, now, f);
    Run(Decorators.Wrap(DumpOperation, correlationId, run.result), run.cloud)
  }

  /** The `lambda_handler` decorator around `save_sessions_to_bucket`. */
  function SaveSessionsHandler(c: Cloud, event: Value, config: Result<Configuration.Config>, f: Faults, correlationId: string): Run {
    var run := SaveSessions(c, event, config, f);
    Run(Decorators.Wrap("save_sessions_to_bucket", correlationId, run.result), run.cloud)
  }

  /**
   * The decorated `dump_post_to_bucket` always answers with a dict carrying
   * the correlation id, success or not, and leaves the stores as the body
   * left them: an exception raised after a write does not undo it.
   */
  lemma DumpHandlerResponds(c: Cloud, post: Value, config: Result<Configuration.Config>, now: int, f: Faults, correlationId: string)
    requires ValidInstant(now)
    requires DumpPost(c, post, config, now, f).result.Ok? || DumpPost(c, post, config, now, f).result.exc.cls != OutOfModel
    ensures var h := DumpPostHandler(c, post, config, now, f, correlationId);
      && h.cloud == DumpPost(c, post, config, now, f).cloud
      && h.result.Ok? && h.result.value.Dict?
      && var meta := Lookup(h.result.value.entries, "metadata");
      && meta.Some? && meta.value.Dict? && Lookup(meta.value.entries, "correlation_id") == Some(Str(correlationId))
  {
    Decorators.StampedEverywhere(DumpOperation, correlationId, DumpPost(c, post, config, now, f).result);
  }

  /** A successful decorated save answers `{"records": records, "metadata": {"correlation_id": id}}`. */
  lemma SaveHandlerResponds(c: Cloud, event: Value, config: Result<Configuration.Config>, f: Faults, correlationId: string)
    requires config.Ok? && RewriteWeek(event).Ok? && SaveSessions(c, event, config, f).result.Ok?
    ensures SaveSessionsHandler(c, event, config, f, correlationId).result ==
      Ok(Dict([("records", RewriteWeek(event).value.records), ("metadata", Dict([("correlation_id", Str(correlationId))]))]))
  {
    SaveWritesIfAbsent(c, event, config, f);
    Decorators.SingleEntryStamped("save_sessions_to_bucket", correlationId, "records", RewriteWeek(event).value.records);
  }

  // ---------------------------------------------------------------------------
  // clean_sessions_df_records

  /**
   * The decorated `clean_sessions_df_records`: the cleaned list comes back
   * under `result`, beside the correlation id; an exception becomes the
   * decorator's error dict.
   */
  function CleanSessionsDfRecords(event: Value, correlationId: string): (r: Result<Value>)
    ensures var out := Transforms.CleanSessions(event);
      out.Ok? ==> r == Ok(Dict([("result", out.value), ("metadata", Dict([("correlation_id", Str(correlationId))]))]))
    ensures var out := Transforms.CleanSessions(event);
      out.Err? ==> r == Decorators.Wrap("clean_sessions_df_records", correlationId, out)
  {
    var out := Transforms.CleanSessions(event);
    if out.Ok? then
      assert out.value.List?;
      Decorators.NonDictWrapped("clean_sessions_df_records", correlationId, out.value);
      Decorators.Wrap("clean_sessions_df_records", correlationId, out)
    else
      Decorators.Wrap("clean_sessions_df_records", correlationId, out)
  }

  // ---------------------------------------------------------------------------
  // Properties of dump_post_to_bucket

  /** Whatever fails, an invocation writes at most the post's own object and its own idempotency item. */
  lemma DumpTouchesOnlyItsObject(c: Cloud, post: Value, cfg: Configuration.Config, path: string, now: int, f: Faults)
    requires ValidInstant(now) && RawPath(post) == Ok(path)
    ensures var run := DumpPost(c, post, Ok(cfg), now, f);
      && BucketsAlike(c, run.cloud, cfg.invictusBucket, path)
      && TablesAlike(c, run.cloud, cfg.idempotencyTable, GenerateKey(DumpOperation, path))
  {
    var bucket, t := cfg.invictusBucket, cfg.idempotencyTable;
    var key := GenerateKey(DumpOperation, path);
    if Completed(c, Some(t), key, f.getItem) || Title(post).Err? {
    } else if HeadObject(c, bucket, path, f.headObject) {
      MarkTouchesOnlyItem(c, t, key, DefaultTtlHours, now, f.putItem);
    } else {
      var obj := S3Object(Json(post), DumpMetadata(key));
      var put := PutObject(c, bucket, path, obj, f.putObject);
      if put.Ok? {
        PutObjectTouchesOnlyObject(c, bucket, path, obj, f.putObject);
        MarkTouchesOnlyItem(put.value, t, key, DefaultTtlHours, now, f.putItem);
      }
    }
  }

  /** An invocation that raises changes nothing; one that returns, returns the post. */
  lemma DumpOutcome(c: Cloud, post: Value, config: Result<Configuration.Config>, now: int, f: Faults)
    requires ValidInstant(now)
    ensures var run := DumpPost(c, post, config, now, f);
      (run.result.Err? ==> run.cloud == c) && (run.result.Ok? ==> run.result.value == post)
  {
    var run := DumpPost(c, post, config, now, f);
    if config.Ok? && RawPath(post).Ok? {
      var path := RawPath(post).value;
      var bucket, t := config.value.invictusBucket, config.value.idempotencyTable;
      var key := GenerateKey(DumpOperation, path);
      var title := Title(post);
      if Completed(c, Some(t), key, f.getItem) || title.Err? {
        assert run.cloud == c && (run.result.Ok? ==> run.result.value == post);
      } else if HeadObject(c, bucket, path, f.headObject) {
        assert run.result == Ok(post);
      } else {
        var put := PutObject(c, bucket, path, S3Object(Json(post), DumpMetadata(key)), f.putObject);
        assert run.result == (if put.Ok? then Ok(post) else Err(put.exc));
        assert put.Err? ==> run.cloud == c;
      }
    }
  }

  /** Without a configuration or a path, an invocation raises and changes nothing. */
  lemma DumpRaisesEarly(c: Cloud, post: Value, config: Result<Configuration.Config>, now: int, f: Faults)
    requires ValidInstant(now) && (config.Err? || RawPath(post).Err?)
    ensures var run := DumpPost(c, post, config, now, f);
      run.cloud == c && run.result == Err(if config.Err? then config.exc else RawPath(post).exc)
  {
  }

  /** When the idempotency table already records the post, nothing is written, and the post comes back unless its title is missing. */
  lemma DumpSkipsCompleted(c: Cloud, post: Value, config: Result<Configuration.Config>, now: int, f: Faults)
    requires ValidInstant(now) && config.Ok? && RawPath(post).Ok?
    requires Completed(c, Some(config.value.idempotencyTable), GenerateKey(DumpOperation, RawPath(post).value), f.getItem)
    ensures var run := DumpPost(c, post, config, now, f);
      run.cloud == c && (run.result.Ok? <==> Title(post).Ok?)
  {
  }

  /**
   * When neither the table nor the bucket knows the post, an invocation
   * succeeds exactly when the title is there and the write succeeds; it then
   * holds the post, with its key and operation as metadata, and the key is
   * recorded unless that write fails.
   */
  lemma DumpWritesPost(c: Cloud, post: Value, config: Result<Configuration.Config>, now: int, f: Faults)
    requires ValidInstant(now) && config.Ok? && RawPath(post).Ok?
    requires !Completed(c, Some(config.value.idempotencyTable), GenerateKey(DumpOperation, RawPath(post).value), f.getItem)
    requires !HeadObject(c, config.value.invictusBucket, RawPath(post).value, f.headObject)
    ensures var run := DumpPost(c, post, config, now, f);
      var path := RawPath(post).value;
      var key := GenerateKey(DumpOperation, path);
      var bucket, t := config.value.invictusBucket, config.value.idempotencyTable;
      && (run.result.Ok? <==> Title(post).Ok? && f.putObject.None? && bucket in c.buckets)
      && (run.result.Ok? ==> run.cloud.buckets[bucket][path] == S3Object(Json(post), DumpMetadata(key)))
      && (run.result.Ok? && !f.putItem && t != "" && t in c.tables && ValidInstant(now + DefaultTtlHours * MicrosPerHour)
          ==> Completed(run.cloud, Some(t), key, false))
  {
    var path := RawPath(post).value;
    var bucket, t := config.value.invictusBucket, config.value.idempotencyTable;
    var key := GenerateKey(DumpOperation, path);
    var obj := S3Object(Json(post), DumpMetadata(key));
    var put := PutObject(c, bucket, path, obj, f.putObject);
    if Title(post).Ok? && put.Ok? {
      MarkTouchesOnlyItem(put.value, t, key, DefaultTtlHours, now, f.putItem);
      if !f.putItem && t != "" && t in c.tables && ValidInstant(now + DefaultTtlHours * MicrosPerHour) {
        MarkThenCheck(put.value, Some(t), key, DefaultTtlHours, now);
      }
    }
  }

  /** An object already at the path is not rewritten; the key is recorded, unless that write fails. */
  lemma DumpMarksExisting(c: Cloud, post: Value, config: Result<Configuration.Config>, now: int, f: Faults)
    requires ValidInstant(now) && config.Ok? && RawPath(post).Ok? && Title(post).Ok?
    requires !Completed(c, Some(config.value.idempotencyTable), GenerateKey(DumpOperation, RawPath(post).value), f.getItem)
    requires HeadObject(c, config.value.invictusBucket, RawPath(post).value, f.headObject)
    ensures var run := DumpPost(c, post, config, now, f);
      var key := GenerateKey(DumpOperation, RawPath(post).value);
      var t := config.value.idempotencyTable;
      && run.result == Ok(post) && run.cloud.buckets == c.buckets
      && (!f.putItem && t != "" && t in c.tables && ValidInstant(now + DefaultTtlHours * MicrosPerHour)
          ==> Completed(run.cloud, Some(t), key, false))
  {
    var t := config.value.idempotencyTable;
    var key := GenerateKey(DumpOperation, RawPath(post).value);
    MarkTouchesOnlyItem(c, t, key, DefaultTtlHours, now, f.putItem);
    if !f.putItem && t != "" && t in c.tables && ValidInstant(now + DefaultTtlHours * MicrosPerHour) {
      MarkThenCheck(c, Some(t), key, DefaultTtlHours, now);
    }
  }

  /**
   * The post is written once: after a first invocation that wrote it, a
   * second one with the same post, at any instant and whatever fails during
   * it, leaves the bucket as the first left it.
   */
  lemma DumpTwiceWritesOnce(c: Cloud, post: Value, cfg: Configuration.Config, path: string, now1: int, now2: int,
                            f1: Faults, f2: Faults, first: Cloud)
    requires ValidInstant(now1) && ValidInstant(now2) && RawPath(post) == Ok(path)
    requires cfg.invictusBucket in c.buckets && path !in c.buckets[cfg.invictusBucket]
    requires !Completed(c, Some(cfg.idempotencyTable), GenerateKey(DumpOperation, path), false)
    requires DumpPost(c, post, Ok(cfg), now1, f1) == Run(Ok(post), first)
    ensures cfg.invictusBucket in first.buckets && path in first.buckets[cfg.invictusBucket]
    ensures first.buckets[cfg.invictusBucket][path] == S3Object(Json(post), DumpMetadata(GenerateKey(DumpOperation, path)))
    ensures DumpPost(first, post, Ok(cfg), now2, f2).cloud.buckets == first.buckets
  {
    DumpWritesPost(c, post, Ok(cfg), now1, f1);
    DumpKeepsWrittenObject(first, post, cfg, path, now2, f2);
  }

  /**
   * Starting from an empty bucket, two invocations with the same post leave
   * exactly one object in it, under `raw/`.
   */
  lemma DumpTwiceOneRawObject(c: Cloud, post: Value, cfg: Configuration.Config, path: string, now1: int, now2: int,
                              f1: Faults, f2: Faults, first: Cloud)
    requires ValidInstant(now1) && ValidInstant(now2) && RawPath(post) == Ok(path)
    requires cfg.invictusBucket in c.buckets && c.buckets[cfg.invictusBucket] == map[]
    requires !Completed(c, Some(cfg.idempotencyTable), GenerateKey(DumpOperation, path), false)
    requires DumpPost(c, post, Ok(cfg), now1, f1) == Run(Ok(post), first)
    ensures var second := DumpPost(first, post, Ok(cfg), now2, f2).cloud;
      cfg.invictusBucket in second.buckets && second.buckets[cfg.invictusBucket].Keys == {path}
    ensures path[..4] == "raw/"
  {
    var bucket := cfg.invictusBucket;
    DumpTwiceWritesOnce(c, post, cfg, path, now1, now2, f1, f2, first);
    DumpTouchesOnlyItsObject(c, post, cfg, path, now1, f1);
    AlikeMeans(c.buckets[bucket], first.buckets[bucket], path);
  }

  /** Once the bucket holds the very object an invocation would write, no invocation changes the buckets. */
  lemma DumpKeepsWrittenObject(c: Cloud, post: Value, cfg: Configuration.Config, path: string, now: int, f: Faults)
    requires ValidInstant(now) && RawPath(post) == Ok(path)
    requires cfg.invictusBucket in c.buckets && path in c.buckets[cfg.invictusBucket]
    requires c.buckets[cfg.invictusBucket][path] == S3Object(Json(post), DumpMetadata(GenerateKey(DumpOperation, path)))
    ensures DumpPost(c, post, Ok(cfg), now, f).cloud.buckets == c.buckets
  {
    var bucket, t := cfg.invictusBucket, cfg.idempotencyTable;
    var key := GenerateKey(DumpOperation, path);
    var obj := S3Object(Json(post), DumpMetadata(key));
    var run := DumpPost(c, post, Ok(cfg), now, f);
    if Completed(c, Some(t), key, f.getItem) || Title(post).Err? {
      assert run.cloud == c;
    } else if HeadObject(c, bucket, path, f.headObject) {
      MarkTouchesOnlyItem(c, t, key, DefaultTtlHours, now, f.putItem);
      assert run.cloud == MarkedComplete(c, Some(t), key, DefaultTtlHours, now, f.putItem);
    } else {
      var put := PutObject(c, bucket, path, obj, f.putObject);
      PutSameObject(c, bucket, path, obj, f.putObject);
      if put.Ok? {
        MarkTouchesOnlyItem(c, t, key, DefaultTtlHours, now, f.putItem);
        assert run.cloud == MarkedComplete(c, Some(t), key, DefaultTtlHours, now, f.putItem);
      } else {
        assert run.cloud == c;
      }
    }
  }

  // ---------------------------------------------------------------------------
  // Properties of save_sessions_to_bucket

  /** The date a dated record holds, as `parse` reads it. */
  function RecordDate(record: Value): Result<DateTime>
    requires Dated(record)
  {
    ParseDate(Lookup(record.entries, "date").value)
  }

  /** What the loop makes of one record: a dated dict has its date normalised in place, anything else is kept. */
  predicate RewrittenAs(record: Value, line: Value) {
    if Dated(record) then
      RecordDate(record).Ok? && line == Dict(Store(record.entries, "date", Str(FormatDate(RecordDate(record).value.date))))
    else line == record
  }

  /** `RewriteWeek` in terms of the results of its steps. */
  lemma WeekOf(event: Value, records: Value, items: seq<Value>)
    requires Transforms.UnwrapRecords(event) == Ok(records) && Iterate(records) == Ok(items)
    requires RewriteWeek(event).Ok?
    ensures MapAll(RewriteRecord, items).Ok?
    ensures var done := MapAll(RewriteRecord, items).value;
      |FoundDates(done)| > 0
      && RewriteWeek(event).value == Week(if records.List? then List(Rewritten(done)) else records,
           Rewritten(done), Earliest(FoundDates(done)).date, Latest(FoundDates(done)).date)
  {
  }

  /** A record whose loop turn found a date contributes it to `dates`. */
  lemma {:induction false} FoundDatesHas(done: seq<(Value, Option<DateTime>)>, i: nat)
    requires i < |done| && done[i].1.Some?
    ensures done[i].1.value in FoundDates(done)
  {
    var front := done[..|done| - 1];
    if i < |front| {
      FoundDatesHas(front, i);
      assert front[i] == done[i];
    }
  }

  /** A loop that found no date produces an empty `dates`. */
  lemma {:induction false} FoundNoDates(done: seq<(Value, Option<DateTime>)>)
    requires forall i :: 0 <= i < |done| ==> done[i].1.None?
    ensures FoundDates(done) == []
  {
    if |done| > 0 {
      FoundNoDates(done[..|done| - 1]);
    }
  }

  /** Records none of which is a dict with a date are refused with ValueError, and nothing is written. */
  lemma SaveRefusesUndated(c: Cloud, event: Value, config: Result<Configuration.Config>, f: Faults, records: Value, items: seq<Value>)
    requires config.Ok?
    requires Transforms.UnwrapRecords(event) == Ok(records) && Iterate(records) == Ok(items)
    requires forall i :: 0 <= i < |items| ==> !Dated(items[i]) && Contains(items[i], "date") == Ok(false)
    ensures RewriteWeek(event) == Err(Exc(ValueError, NoDatesMessage))
    ensures SaveSessions(c, event, config, f) == Run(Err(Exc(ValueError, NoDatesMessage)), c)
  {
    var m := MapAll(RewriteRecord, items);
    assert m.Ok?;
    FoundNoDates(m.value);
  }

  /** Every record comes back, in its place, with its date normalised when it is a dated dict and untouched otherwise. */
  lemma SaveRewritesDates(event: Value, records: Value, items: seq<Value>)
    requires Transforms.UnwrapRecords(event) == Ok(records) && Iterate(records) == Ok(items)
    requires RewriteWeek(event).Ok?
    ensures var w := RewriteWeek(event).value;
      && |w.lines| == |items|
      && (forall i :: 0 <= i < |items| ==> RewrittenAs(items[i], w.lines[i]))
      && w.records == (if records.List? then List(w.lines) else records)
  {
    WeekOf(event, records, items);
    var done := MapAll(RewriteRecord, items).value;
    forall i | 0 <= i < |items| ensures RewrittenAs(items[i], Rewritten(done)[i]) {
      assert done[i] == RewriteRecord(items[i]).value;
    }
  }

  /** Every date the loop found lies between the earliest and the latest of them. */
  lemma FoundDatesBounded(done: seq<(Value, Option<DateTime>)>, i: nat)
    requires |FoundDates(done)| > 0 && i < |done| && done[i].1.Some?
    ensures NotLater(Earliest(FoundDates(done)).date, done[i].1.value.date)
    ensures NotLater(done[i].1.value.date, Latest(FoundDates(done)).date)
  {
    var dates := FoundDates(done);
    FoundDatesHas(done, i);
    var t := done[i].1.value;
    var k :| 0 <= k < |dates| && dates[k] == t;
    NotBeforeDates(Earliest(dates), t);
    NotBeforeDates(t, Latest(dates));
  }

  /** The earliest and the latest found dates were each found on some record. */
  lemma FoundDatesEnds(done: seq<(Value, Option<DateTime>)>)
    requires |FoundDates(done)| > 0
    ensures exists i :: 0 <= i < |done| && done[i].1 == Some(Earliest(FoundDates(done)))
    ensures exists i :: 0 <= i < |done| && done[i].1 == Some(Latest(FoundDates(done)))
  {
    var dates := FoundDates(done);
    var a :| 0 <= a < |dates| && dates[a] == Earliest(dates);
    FoundDatesFrom(done, a);
    var b :| 0 <= b < |dates| && dates[b] == Latest(dates);
    FoundDatesFrom(done, b);
  }

  /** Every dated record falls within the week the path names. */
  lemma SaveWeekBounds(event: Value, records: Value, items: seq<Value>, i: nat)
    requires Transforms.UnwrapRecords(event) == Ok(records) && Iterate(records) == Ok(items)
    requires RewriteWeek(event).Ok? && i < |items| && Dated(items[i])
    ensures RecordDate(items[i]).Ok?
    ensures NotLater(RewriteWeek(event).value.start, RecordDate(items[i]).value.date)
    ensures NotLater(RecordDate(items[i]).value.date, RewriteWeek(event).value.end)
  {
    WeekOf(event, records, items);
    var done := MapAll(RewriteRecord, items).value;
    assert done[i] == RewriteRecord(items[i]).value;
    FoundDatesBounded(done, i);
  }

  /** The week's first and last dates are the dates of some dated records. */
  lemma SaveWeekEnds(event: Value, records: Value, items: seq<Value>, w: Week)
    requires Transforms.UnwrapRecords(event) == Ok(records) && Iterate(records) == Ok(items)
    requires RewriteWeek(event) == Ok(w)
    ensures exists i :: 0 <= i < |items| && Dated(items[i]) && RecordDate(items[i]).Ok? && RecordDate(items[i]).value.date == w.start
    ensures exists i :: 0 <= i < |items| && Dated(items[i]) && RecordDate(items[i]).Ok? && RecordDate(items[i]).value.date == w.end
  {
    WeekOf(event, records, items);
    var done := MapAll(RewriteRecord, items).value;
    FoundDatesEnds(done);
    var first, last := Earliest(FoundDates(done)), Latest(FoundDates(done));
    assert w.start == first.date && w.end == last.date;
    var i :| 0 <= i < |done| && done[i].1 == Some(first);
    DatedAt(items, done, i);
    var j :| 0 <= j < |done| && done[j].1 == Some(last);
    DatedAt(items, done, j);
  }

  /** A record on which the loop found a date is a dated dict, and the date is its parsed `date`. */
  lemma DatedAt(items: seq<Value>, done: seq<(Value, Option<DateTime>)>, i: nat)
    requires MapAll(RewriteRecord, items) == Ok(done) && i < |done| && done[i].1.Some?
    ensures i < |items| && Dated(items[i]) && RecordDate(items[i]) == Ok(done[i].1.value)
  {
    assert done[i] == RewriteRecord(items[i]).value;
  }

  /** Without a configuration, or when the records cannot be read or hold no date, the save raises and writes nothing. */
  lemma SaveRaisesEarly(c: Cloud, event: Value, config: Result<Configuration.Config>, f: Faults)
    requires config.Err? || RewriteWeek(event).Err?
    ensures SaveSessions(c, event, config, f) == Run(Err(if config.Err? then config.exc else RewriteWeek(event).exc), c)
  {
  }

  /**
   * With the week's records in hand, the week's object is written only when
   * absent: an existing one is left as it is, a new one holds the rewritten
   * records as JSON Lines, and nothing else changes. Either way the response
   * is the records under `records`.
   */
  lemma SaveWritesIfAbsent(c: Cloud, event: Value, config: Result<Configuration.Config>, f: Faults)
    requires config.Ok? && RewriteWeek(event).Ok?
    ensures var run := SaveSessions(c, event, config, f);
      var w := RewriteWeek(event).value;
      var bucket := config.value.invictusBucket;
      var path := WeeklyPath(w.start, w.end);
      && run.cloud.tables == c.tables && BucketsAlike(c, run.cloud, bucket, path)
      && (HeadObject(c, bucket, path, f.headObject) ==> run == Run(Ok(Dict([("records", w.records)])), c))
      && (run.result.Err? <==> !HeadObject(c, bucket, path, f.headObject) && PutObject(c, bucket, path, S3Object(JsonLines(w.lines), map[]), f.putObject).Err?)
      && (run.result.Err? ==> run.cloud == c && run.result.exc.cls == ClientError)
      && (run.result.Ok? ==> run.result.value == Dict([("records", w.records)]))
      && (run.result.Ok? && !HeadObject(c, bucket, path, f.headObject) ==> run.cloud.buckets[bucket][path] == S3Object(JsonLines(w.lines), map[]))
  {
    var w := RewriteWeek(event).value;
    var bucket := config.value.invictusBucket;
    var path := WeeklyPath(w.start, w.end);
    var obj := S3Object(JsonLines(w.lines), map[]);
    if !HeadObject(c, bucket, path, f.headObject) && PutObject(c, bucket, path, obj, f.putObject).Ok? {
      PutObjectTouchesOnlyObject(c, bucket, path, obj, f.putObject);
    }
  }
}
