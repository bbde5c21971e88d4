/**
 * The text-segmentation steps of the workflow (transforms.py): a post's text
 * is cut into days at weekday lines, each day into blocks at sub-header
 * lines, the blocks become one dated record per day, and the records are
 * cleaned into the final column names.
 */
module Transforms {
  import opened Py
  import opened Text
  import opened Grouping
  import opened Dates

  // ---------------------------------------------------------------------------
  // The two marker patterns

  const Weekdays: seq<string> := ["Monday", "Tuesday", "Wednesday", "Thursday", "Friday", "Saturday", "Sunday"]

  /** `(Monday)|(Tuesday)|…|(Sunday)` under IGNORECASE finds a match in `line`. */
  predicate IsWeekdayLine(line: string) {
    exists i :: 0 <= i < |Weekdays| && ContainsIgnoreCase(line, Weekdays[i])
  }

  predicate IsLabelLetter(c: char) {
    'A' <= c <= 'F' || 'a' <= c <= 'f'
  }

  /**
   * `^[A-F].$` under IGNORECASE: a letter A to F, one more character that is
   * not a newline, then the end of the string, or a final newline, which
   * Python's `$` also accepts.
   */
  predicate IsLetterLabel(line: string) {
    (|line| == 2 || (|line| == 3 && line[2] == '\n')) && IsLabelLetter(line[0]) && line[1] != '\n'
  }

  /** `(Session)|(Suggested Warm-Up)|^[A-F].$` under IGNORECASE finds a match in `line`. */
  predicate IsSubHeader(line: string) {
    ContainsIgnoreCase(line, "Session") || ContainsIgnoreCase(line, "Suggested Warm-Up") || IsLetterLabel(line)
  }

  /** `partition_by` tests `str(item)`. */
  predicate SubHeaderItem(v: Value) {
    IsSubHeader(PyStr(v))
  }

  function StrValues(lines: seq<string>): (vs: seq<Value>)
    ensures |vs| == |lines| && forall i :: 0 <= i < |lines| ==> vs[i] == Str(lines[i])
  {
    seq(|lines|, i requires 0 <= i < |lines| => Str(lines[i]))
  }

  // ---------------------------------------------------------------------------
  // group_post_content_by_day

  /** The text of a post: a dict's `text` (default `''`), otherwise `str(post)`. */
  function PostText(post: Value): (r: Result<string>)
    ensures !post.Dict? ==> r == Ok(PyStr(post))
    ensures post.Dict? && "text" !in Keys(post.entries) ==> r == Ok("")
    ensures post.Dict? && Lookup(post.entries, "text").Some? ==>
      match Lookup(post.entries, "text").value
      case Str(s) => r == Ok(s)
      case v => r == Err(NoAttribute(v, "split"))
  {
    match post
    case Dict(e) =>
      var text := Lookup(e, "text");
      if text.None? then Ok("")
      else if text.value.Str? then Ok(text.value.s)
      else Err(NoAttribute(text.value, "split"))
    case _ => Ok(PyStr(post))
  }

  /** The days of a text: its lines grouped at weekday lines. */
  function DaysOf(text: string): seq<seq<string>> {
    Grouped(IsWeekdayLine, Split(text))
  }

  function DayValues(days: seq<seq<string>>): (vs: seq<Value>)
    ensures |vs| == |days| && forall i :: 0 <= i < |days| ==> vs[i] == List(StrValues(days[i]))
  {
    seq(|days|, i requires 0 <= i < |days| => List(StrValues(days[i])))
  }

  /** `group_post_content_by_day`: the only key of the result is `sessions`, one list of lines per day. */
  function GroupPostContentByDay(post: Value): (r: Result<Value>)
    ensures r.Ok? <==> PostText(post).Ok?
    ensures r.Ok? ==> r.value.Dict? && Keys(r.value.entries) == ["sessions"]
    ensures r.Ok? ==> r.value.entries[0].1 == List(DayValues(DaysOf(PostText(post).value)))
    ensures r.Err? ==> r.exc.cls == AttributeError
  {
    var text :- PostText(post);
    Ok(Dict([("sessions", List(DayValues(DaysOf(text))))]))
  }

  /** Each day starts with a weekday line and holds no other; the lines before the first weekday line are dropped. */
  lemma DaysAreDelimited(text: string)
    requires |MatchesOf(IsWeekdayLine, Split(text))| >= 2
    ensures var days := DaysOf(text);
      var first := MatchesOf(IsWeekdayLine, Split(text))[0].0;
      && |days| == |MatchesOf(IsWeekdayLine, Split(text))|
      && (forall j :: 0 <= j < |days| ==>
            |days[j]| > 0 && IsWeekdayLine(days[j][0]) && forall t :: 0 < t < |days[j]| ==> !IsWeekdayLine(days[j][t]))
      && Concat(days) == Split(text)[first..]
      && forall i :: 0 <= i < first ==> !IsWeekdayLine(Split(text)[i])
  {
    var lines := Split(text);
    GroupedShape(IsWeekdayLine, lines);
    forall j | 0 <= j < |DaysOf(text)|
      ensures |DaysOf(text)[j]| > 0 && IsWeekdayLine(DaysOf(text)[j][0])
      ensures forall t :: 0 < t < |DaysOf(text)[j]| ==> !IsWeekdayLine(DaysOf(text)[j][t])
    {
      GroupsAreDelimited(IsWeekdayLine, lines, j);
    }
    GroupedConcat(IsWeekdayLine, lines);
    forall i | 0 <= i < MatchesOf(IsWeekdayLine, lines)[0].0 ensures !IsWeekdayLine(lines[i]) {
      DroppedPrefixHasNoMarker(IsWeekdayLine, lines, i);
    }
  }

  /** A text with fewer than two weekday lines, a single one included, has no days. */
  lemma FewWeekdaysNoDays(post: Value)
    requires PostText(post).Ok? && |MatchesOf(IsWeekdayLine, Split(PostText(post).value))| < 2
    ensures GroupPostContentByDay(post) == Ok(Dict([("sessions", List([]))]))
  {
    GroupedFewMatches(IsWeekdayLine, Split(PostText(post).value));
  }

  // ---------------------------------------------------------------------------
  // segment_days

  /** The event a step reads: a `result` that is itself a dict stands in for the event. */
  function StepInput(event: Value): (r: Value)
    ensures event.Dict? && Lookup(event.entries, "result").Some? && Lookup(event.entries, "result").value.Dict?
            ==> r == Lookup(event.entries, "result").value
    ensures !(event.Dict? && Lookup(event.entries, "result").Some? && Lookup(event.entries, "result").value.Dict?)
            ==> r == event
  {
    var result := if event.Dict? then Lookup(event.entries, "result") else None;
    if result.Some? && result.value.Dict? then result.value else event
  }

  const RestDay: Value := List([List([Str("session"), Str("rest day")])])

  /** The blocks of one day: `[['session', first sub-header line], *later groups]`, or the rest-day sentinel. */
  function SegmentDay(session: Value): (r: Result<Value>)
    ensures session.List? || session.Str? ==> r.Ok?
    ensures r.Ok? ==> r.value.List? && |r.value.items| > 0
    ensures r.Err? ==> r.exc.cls == TypeError
  {
    match session
    case List(items) =>
      var groups := Grouped(SubHeaderItem, items);
      if |groups| == 0 then Ok(RestDay)
      else
        FirstGroupNonEmpty(SubHeaderItem, items);
        Ok(List(DayBlocks(groups)))
    case Str(_) =>
      // the characters of a string are never sub-header lines: see StringSessionIsRestDay
      Ok(RestDay)
    case Dict(_) =>
      // enumerates the keys; slicing a dict fails only once there are index pairs to slice by
      if |MatchesOf(SubHeaderItem, Iterate(session).value)| < 2 then Ok(RestDay)
      else Err(Exc(TypeError, "unhashable type: 'slice'"))
    case _ => Err(Exc(TypeError, "'" + TypeName(session) + "' object is not iterable"))
  }

  function DayBlocks(groups: seq<seq<Value>>): seq<Value>
    requires |groups| > 0 && |groups[0]| > 0
  {
    [List([Str("session"), groups[0][0]])] + seq(|groups| - 1, i requires 0 <= i < |groups| - 1 => List(groups[i + 1]))
  }

  /** A one-character string is never a sub-header line. */
  lemma OneCharNotSubHeader(c: char)
    ensures !IsSubHeader([c])
  {
  }

  /** A string session yields no groups, because its characters are never sub-header lines. */
  lemma StringSessionIsRestDay(s: string)
    ensures MatchesOf(SubHeaderItem, Iterate(Str(s)).value) == []
  {
    var items := Iterate(Str(s)).value;
    forall i | 0 <= i < |items| ensures !SubHeaderItem(items[i]) {
      OneCharNotSubHeader(s[i]);
    }
    NoMatches(SubHeaderItem, items);
  }

  /** A list day with k >= 2 sub-header lines gives k blocks; the first names the session by its first sub-header line. */
  lemma SegmentDayShape(items: seq<Value>, m: seq<(nat, Value)>)
    requires m == MatchesOf(SubHeaderItem, items) && |m| >= 2
    ensures var r := SegmentDay(List(items));
      && r.Ok? && r.value.List? && |r.value.items| == |m|
      && r.value.items[0] == List([Str("session"), m[0].1])
      && forall j :: 1 <= j < |m| ==> r.value.items[j] == List(items[m[j].0..Bound(m, j + 1, |items|)])
  {
    var g := Grouped(SubHeaderItem, items);
    GroupedShape(SubHeaderItem, items);
    FirstGroupNonEmpty(SubHeaderItem, items);
    assert SegmentDay(List(items)) == Ok(List(DayBlocks(g)));
    SpansToBlocks(items, m, g);
  }

  lemma SpansToBlocks(items: seq<Value>, m: seq<(nat, Value)>, g: seq<seq<Value>>)
    requires |m| >= 2 && |g| == |m| && |g[0]| > 0
    requires forall k :: 0 <= k < |m| ==> GroupSpan(items, m, g, k)
    requires m[0].0 < |items| && items[m[0].0] == m[0].1
    ensures |DayBlocks(g)| == |m|
    ensures DayBlocks(g)[0] == List([Str("session"), m[0].1])
    ensures forall j :: 1 <= j < |m| ==> GroupSpan(items, m, g, j) && DayBlocks(g)[j] == List(g[j])
  {
    BlocksOfGroups(g);
    assert GroupSpan(items, m, g, 0);
  }

  lemma BlocksOfGroups(g: seq<seq<Value>>)
    requires |g| > 0 && |g[0]| > 0
    ensures |DayBlocks(g)| == |g|
    ensures DayBlocks(g)[0] == List([Str("session"), g[0][0]])
    ensures forall j :: 1 <= j < |g| ==> DayBlocks(g)[j] == List(g[j])
  {
  }

  /** A list day with fewer than two sub-header lines, a single one included, is a rest day. */
  lemma SegmentDayFewMarkers(items: seq<Value>)
    requires |MatchesOf(SubHeaderItem, items)| < 2
    ensures SegmentDay(List(items)) == Ok(RestDay)
  {
    GroupedFewMatches(SubHeaderItem, items);
  }

  /** Every segmented day is a non-empty list whose first block is a `session` pair. */
  lemma SegmentDayHeads(session: Value)
    requires SegmentDay(session).Ok?
    ensures var d := SegmentDay(session).value;
      d.List? && |d.items| > 0 && d.items[0].List? && |d.items[0].items| == 2 && d.items[0].items[0] == Str("session")
  {
  }

  /** `segment_days` */
  function SegmentDays(event: Value): (r: Result<Value>)
    ensures r.Ok? ==> r.value.Dict? && Keys(r.value.entries) == ["segmented_sessions"]
  {
    var data := StepInput(event);
    var sessions :- GetItem(data, "sessions");
    var days :- Iterate(sessions);
    var segmented :- MapAll(SegmentDay, days);
    Ok(Dict([("segmented_sessions", List(segmented))]))
  }

  /** One segmented day per session, in order. */
  lemma SegmentDaysInOrder(event: Value)
    requires SegmentDays(event).Ok?
    ensures var days := Iterate(GetItem(StepInput(event), "sessions").value).value;
      var out := SegmentDays(event).value.entries[0].1;
      && out.List? && |out.items| == |days|
      && forall i :: 0 <= i < |days| ==> SegmentDay(days[i]) == Ok(out.items[i])
  {
  }

  // ---------------------------------------------------------------------------
  // sessions_to_json_records_by_day

  /** `session[0]: ' '.join(session[1:])` for one block. */
  function BlockEntry(block: Value): (r: Result<(string, Value)>)
    ensures block.List? && |block.items| > 0 && block.items[0].Str? && (forall i :: 1 <= i < |block.items| ==> block.items[i].Str?)
            ==> r.Ok? && r.value.0 == block.items[0].s && r.value.1.Str?
    ensures block.List? && |block.items| == 0 ==> r == Err(Exc(IndexError, "list index out of range"))
  {
    // the key is evaluated first, then the value, then the key is hashed
    var head :- Index(block, 0);
    var rest :- Rest(block);
    var parts :- Iterate(rest);
    var strs :- Strings(parts, 0);
    var key :- HashKey(head);
    Ok((key, Str(Join(" ", strs))))
  }

  /** `{b[0]: ' '.join(b[1:]) for b in day}`: a later block with the same label overwrites an earlier one. */
  function SessionOf(day: Value): (r: Result<seq<(string, Value)>>)
    ensures r.Ok? ==> UniqueKeys(r.value)
  {
    var blocks :- Iterate(day);
    var entries :- MapAll(BlockEntry, blocks);
    MergeKeepsUnique([], entries);
    Ok(Merge([], entries))
  }

  function DayRecord(segs: Value, i: nat): (r: Result<seq<(string, Value)>>)
    ensures r.Ok? ==> UniqueKeys(r.value)
  {
    var day :- Index(segs, i);
    SessionOf(day)
  }

  /** The sessions of days `0 .. n-1`, the first failure stopping the comprehension. */
  function DayRecords(segs: Value, n: nat): (r: Result<seq<seq<(string, Value)>>>)
    ensures r.Ok? <==> forall i: nat :: i < n ==> DayRecord(segs, i).Ok?
    ensures r.Ok? ==> |r.value| == n && forall i: nat :: i < n ==> r.value[i] == DayRecord(segs, i).value
  {
    var f := (i: nat) => DayRecord(segs, i);
    var rs := Range(n);
    assert forall i: nat :: i < n ==> f(rs[i]) == DayRecord(segs, i);
    MapAll(f, rs)
  }

  function Range(n: nat): (r: seq<nat>)
    ensures |r| == n && forall i :: 0 <= i < n ==> r[i] == i
  {
    seq(n, i requires 0 <= i < n => i)
  }

  /** The first day of the records' week: `today - timedelta(days=today.isoweekday())`. */
  function WeekStart(today: int): int {
    today - IsoWeekday(today)
  }

  /** `[start + timedelta(days=d) for d in range(count)]` */
  function WeekDates(start: int, count: nat): (ds: seq<Date>)
    requires 1 <= start && start + count <= MaxOrdinal + 1
    ensures |ds| == count && forall i :: 0 <= i < count ==> ds[i] == FromOrdinal(start + i)
  {
    seq(count, i requires 0 <= i < count => FromOrdinal(start + i))
  }

  /** `{"date": str(date), **session}` */
  function DatedRecord(date: Date, session: seq<(string, Value)>): seq<(string, Value)>
    requires ValidDate(date)
  {
    Merge([("date", Str(FormatDate(date)))], session)
  }

  /** `[{"date": str(dates[i]), **session} for i, session in enumerate(sessions)]` */
  function DatedRecords(dates: seq<Date>, sessions: seq<seq<(string, Value)>>): (rs: seq<Value>)
    requires |dates| >= |sessions| && forall i :: 0 <= i < |dates| ==> ValidDate(dates[i])
    ensures |rs| == |sessions|
  {
    seq(|sessions|, i requires 0 <= i < |sessions| => Dict(DatedRecord(dates[i], sessions[i])))
  }

  /**
   * `sessions_to_json_records_by_day` with `date.today()` given as the
   * ordinal `today`. The dates run from the week start to the week start
   * plus the number of days, and the last one must still be a date.
   */
  function SessionsToJsonRecordsByDay(event: Value, today: int): (r: Result<Value>)
    requires 1 <= today <= MaxOrdinal
    ensures r.Ok? ==> var segs := GetItem(StepInput(event), "segmented_sessions");
      && segs.Ok? && 1 <= WeekStart(today) && r == WeekRecords(WeekStart(today), segs.value)
  {
    var data := StepInput(event);
    var start :- AddDays(today, -IsoWeekday(today));
    var segs :- GetItem(data, "segmented_sessions");
    assert start == WeekStart(today);
    WeekRecords(start, segs)
  }

  /** The records of the week starting on ordinal `start`, one per segmented day. */
  function WeekRecords(start: int, segs: Value): (r: Result<Value>)
    requires 1 <= start
    ensures r.Ok? ==>
      && Len(segs).Ok? && start + Len(segs).value <= MaxOrdinal
      && DayRecords(segs, Len(segs).value).Ok?
      && r == Ok(List(DatedRecords(WeekDates(start, Len(segs).value + 1), DayRecords(segs, Len(segs).value).value)))
  {
    var n :- Len(segs);
    var _ :- AddDays(start, n);
    var dates := WeekDates(start, n + 1);
    var sessions :- DayRecords(segs, n);
    Ok(List(DatedRecords(dates, sessions)))
  }

  /** The week starts on a Sunday one to seven days before today. */
  lemma WeekStartIsSunday(today: int)
    ensures IsoWeekday(WeekStart(today)) == 7
    ensures today - 7 <= WeekStart(today) < today
  {
  }

  lemma LookupUnder(k0: string, v0: Value, s: seq<(string, Value)>)
    requires UniqueKeys(s)
    ensures Lookup(Merge([(k0, v0)], s), k0) == if k0 in Keys(s) then Lookup(s, k0) else Some(v0)
    ensures forall k :: k != k0 ==> Lookup(Merge([(k0, v0)], s), k) == Lookup(s, k)
  {
    forall k {
      LookupMerge([(k0, v0)], s, k);
    }
  }

  /** Record `i` carries the session's entries under a leading `date`, which a `date` label of the session overrides. */
  lemma DatedRecordsAt(dates: seq<Date>, sessions: seq<seq<(string, Value)>>, i: nat)
    requires |dates| >= |sessions| && forall j :: 0 <= j < |dates| ==> ValidDate(dates[j])
    requires i < |sessions| && UniqueKeys(sessions[i])
    ensures var r := DatedRecords(dates, sessions)[i]; var s := sessions[i];
      && r.Dict?
      && Lookup(r.entries, "date") == (if "date" in Keys(s) then Lookup(s, "date") else Some(Str(FormatDate(dates[i]))))
      && forall k :: k != "date" ==> Lookup(r.entries, k) == Lookup(s, k)
  {
    assert DatedRecords(dates, sessions)[i] == Dict(DatedRecord(dates[i], sessions[i]));
    LookupUnder("date", Str(FormatDate(dates[i])), sessions[i]);
  }

  /**
   * One record per segmented day, in order. Record `i` carries the date of
   * the week start plus `i` days unless the day has a block labelled `date`,
   * and maps every other label to the space-joined lines of its block.
   */
  lemma RecordsByDay(event: Value, today: int, i: nat)
    requires 1 <= today <= MaxOrdinal && SessionsToJsonRecordsByDay(event, today).Ok?
    requires i < |SessionsToJsonRecordsByDay(event, today).value.items|
    ensures var segs := GetItem(StepInput(event), "segmented_sessions").value;
      var records := SessionsToJsonRecordsByDay(event, today).value.items;
      var session := DayRecord(segs, i);
      && Len(segs) == Ok(|records|)
      && 1 <= WeekStart(today) + i <= MaxOrdinal
      && session.Ok?
      && records[i].Dict?
      && Lookup(records[i].entries, "date")
         == (if "date" in Keys(session.value) then Lookup(session.value, "date")
             else Some(Str(FormatDate(FromOrdinal(WeekStart(today) + i)))))
      && forall k :: k != "date" ==> Lookup(records[i].entries, k) == Lookup(session.value, k)
  {
    WeekRecordAt(WeekStart(today), GetItem(StepInput(event), "segmented_sessions").value, i);
  }

  /** Record `i` of the week starting on ordinal `start`. */
  lemma WeekRecordAt(start: int, segs: Value, i: nat)
    requires 1 <= start && WeekRecords(start, segs).Ok? && WeekRecords(start, segs).value.List?
    requires i < |WeekRecords(start, segs).value.items|
    ensures var records := WeekRecords(start, segs).value.items;
      var session := DayRecord(segs, i);
      && Len(segs) == Ok(|records|)
      && 1 <= start + i <= MaxOrdinal
      && session.Ok?
      && records[i].Dict?
      && Lookup(records[i].entries, "date")
         == (if "date" in Keys(session.value) then Lookup(session.value, "date")
             else Some(Str(FormatDate(FromOrdinal(start + i)))))
      && forall k :: k != "date" ==> Lookup(records[i].entries, k) == Lookup(session.value, k)
  {
    var n := Len(segs).value;
    var sessions := DayRecords(segs, n).value;
    assert DayRecord(segs, i).Ok? && sessions[i] == DayRecord(segs, i).value;
    var dates := WeekDates(start, n + 1);
    DatedRecordsAt(dates, sessions, i);
  }

  /** Within a day, a name maps to the space-joined lines of the last block carrying it. */
  lemma LaterLabelWins(day: Value, name: string)
    requires SessionOf(day).Ok?
    ensures var entries := MapAll(BlockEntry, Iterate(day).value).value;
      Lookup(SessionOf(day).value, name) == LastValue(entries, name)
  {
    var entries := MapAll(BlockEntry, Iterate(day).value).value;
    LookupMergeLast([], entries, name);
  }

  /**
   * As written, record `i` takes `dates[i]`, although the comprehension
   * walks `dates[1:]`: a day without a `date` label falls `i` days after the
   * Sunday that starts the week, so the first is dated that Sunday, one day
   * before the Monday its session is for.
   */
  lemma RecordsFromSunday(event: Value, today: int, i: nat)
    requires 1 <= today <= MaxOrdinal && SessionsToJsonRecordsByDay(event, today).Ok?
    requires i < |SessionsToJsonRecordsByDay(event, today).value.items|
    ensures var segs := GetItem(StepInput(event), "segmented_sessions").value;
      var records := SessionsToJsonRecordsByDay(event, today).value.items;
      var session := DayRecord(segs, i);
      && session.Ok? && records[i].Dict?
      && Lookup(records[i].entries, "date")
         == (if "date" in Keys(session.value) then Lookup(session.value, "date")
             else Some(Str(FormatDate(FromOrdinal(WeekStart(today) + i)))))
    ensures IsoWeekday(WeekStart(today) + i) == (if i % 7 == 0 then 7 else i % 7)
  {
    RecordsByDay(event, today, i);
    DaysAfterWeekStart(today, i);
  }

  /** The day `i` days after the week start falls on weekday `i` modulo 7, a Sunday when that is 0. */
  lemma DaysAfterWeekStart(today: int, i: nat)
    ensures IsoWeekday(WeekStart(today) + i) == (if i % 7 == 0 then 7 else i % 7)
  {
    WeekStartIsSunday(today);
  }

  /** The records as the week's layout intends them: record `i` is dated `dates[i + 1]`. */
  function WeekRecordsFromMonday(start: int, segs: Value): (r: Result<Value>)
    requires 1 <= start
    ensures r.Ok? ==>
      && Len(segs).Ok? && start + Len(segs).value <= MaxOrdinal
      && DayRecords(segs, Len(segs).value).Ok?
      && r == Ok(List(DatedRecords(WeekDates(start + 1, Len(segs).value), DayRecords(segs, Len(segs).value).value)))
  {
    var n :- Len(segs);
    var _ :- AddDays(start, n);
    var dates := WeekDates(start, n + 1);
    var sessions :- DayRecords(segs, n);
    assert dates[1..] == WeekDates(start + 1, n);
    Ok(List(DatedRecords(dates[1..], sessions)))
  }

  /** `sessions_to_json_records_by_day` with the records dated from the Monday after the week start. */
  function RecordsByDayFromMonday(event: Value, today: int): (r: Result<Value>)
    requires 1 <= today <= MaxOrdinal
    ensures r.Ok? ==> var segs := GetItem(StepInput(event), "segmented_sessions");
      && segs.Ok? && 1 <= WeekStart(today) && r == WeekRecordsFromMonday(WeekStart(today), segs.value)
  {
    var data := StepInput(event);
    var start :- AddDays(today, -IsoWeekday(today));
    var segs :- GetItem(data, "segmented_sessions");
    assert start == WeekStart(today);
    WeekRecordsFromMonday(start, segs)
  }

  /**
   * Corrected, record `i` is dated the week start plus `i + 1` days (the
   * first record falls on the Monday), and every other entry is that of the
   * day's session.
   */
  lemma RecordsFromMonday(event: Value, today: int, i: nat)
    requires 1 <= today <= MaxOrdinal && RecordsByDayFromMonday(event, today).Ok?
    requires i < |RecordsByDayFromMonday(event, today).value.items|
    ensures var segs := GetItem(StepInput(event), "segmented_sessions").value;
      var records := RecordsByDayFromMonday(event, today).value.items;
      var session := DayRecord(segs, i);
      && Len(segs) == Ok(|records|)
      && 1 <= WeekStart(today) + i + 1 <= MaxOrdinal
      && session.Ok?
      && records[i].Dict?
      && Lookup(records[i].entries, "date")
         == (if "date" in Keys(session.value) then Lookup(session.value, "date")
             else Some(Str(FormatDate(FromOrdinal(WeekStart(today) + i + 1)))))
      && forall k :: k != "date" ==> Lookup(records[i].entries, k) == Lookup(session.value, k)
  {
    WeekRecordFromMondayAt(WeekStart(today), GetItem(StepInput(event), "segmented_sessions").value, i);
  }

  /** The day after the week start, where the corrected records begin, is a Monday. */
  lemma DayAfterWeekStartIsMonday(today: int)
    ensures IsoWeekday(WeekStart(today) + 1) == 1
  {
    DaysAfterWeekStart(today, 1);
  }

  /** Record `i` of the corrected week starting on ordinal `start`. */
  lemma WeekRecordFromMondayAt(start: int, segs: Value, i: nat)
    requires 1 <= start && WeekRecordsFromMonday(start, segs).Ok? && WeekRecordsFromMonday(start, segs).value.List?
    requires i < |WeekRecordsFromMonday(start, segs).value.items|
    ensures var records := WeekRecordsFromMonday(start, segs).value.items;
      var session := DayRecord(segs, i);
      && Len(segs) == Ok(|records|)
      && 1 <= start + i + 1 <= MaxOrdinal
      && session.Ok?
      && records[i].Dict?
      && Lookup(records[i].entries, "date")
         == (if "date" in Keys(session.value) then Lookup(session.value, "date")
             else Some(Str(FormatDate(FromOrdinal(start + i + 1)))))
      && forall k :: k != "date" ==> Lookup(records[i].entries, k) == Lookup(session.value, k)
  {
    var n := Len(segs).value;
    var sessions := DayRecords(segs, n).value;
    assert DayRecord(segs, i).Ok? && sessions[i] == DayRecord(segs, i).value;
    var dates := WeekDates(start + 1, n);
    DatedRecordsAt(dates, sessions, i);
  }

  /** The corrected records exist exactly when the records as written do. */
  lemma FromMondayAlike(start: int, segs: Value)
    requires 1 <= start
    ensures WeekRecordsFromMonday(start, segs).Ok? <==> WeekRecords(start, segs).Ok?
  {
  }

  // ---------------------------------------------------------------------------
  // clean_sessions_df_records

  const ColumnMapping: seq<(string, string)> := [
    ("Suggested Warm-Up", "warm_up"),
    ("A.", "segment_a"),
    ("B.", "segment_b"),
    ("C.", "segment_c"),
    ("D.", "segment_d"),
    ("E.", "segment_e")
  ]

  /** `column_mapping.get(k, k)` */
  function RenameKey(k: string): (r: string)
    ensures k in Keys(ColumnMapping) ==> r == Lookup(ColumnMapping, k).value
    ensures k !in Keys(ColumnMapping) ==> r == k
  {
    match Lookup(ColumnMapping, k)
    case Some(n) => n
    case None => k
  }

  /** The artifact columns the cleaning drops. */
  predicate Dropped(k: string) {
    k == "s" || k == "r"
  }

  /** One pass of the rename loop. */
  function RenameStep(cleaned: seq<(string, Value)>, entry: (string, Value)): seq<(string, Value)> {
    var newKey := RenameKey(entry.0);
    if Dropped(newKey) then cleaned else Store(cleaned, newKey, entry.1)
  }

  lemma RenameStepKeepsUnique(cleaned: seq<(string, Value)>, entry: (string, Value))
    requires UniqueKeys(cleaned)
    ensures UniqueKeys(RenameStep(cleaned, entry))
  {
    StoreKeepsUnique(cleaned, RenameKey(entry.0), entry.1);
  }

  /** The record after the rename loop over its first `|e|` entries. */
  function Renamed(e: seq<(string, Value)>): (r: seq<(string, Value)>)
    ensures UniqueKeys(r)
    decreases |e|
  {
    if |e| == 0 then []
    else
      var front := Renamed(e[..|e| - 1]);
      var entry := e[|e| - 1];
      RenameStepKeepsUnique(front, entry);
      RenameStep(front, entry)
  }

  /** The date rewrite: `date` is parsed and written back as `YYYY-MM-DD`. */
  function WithDate(c: seq<(string, Value)>): (r: Result<seq<(string, Value)>>)
  {
    match Lookup(c, "date")
    case None => Ok(c)
    case Some(v) =>
      var t :- ParseDate(v);
      Ok(Store(c, "date", Str(FormatDate(t.date))))
  }

  /** `session` becomes `'Rest Day'` when it is missing or None. */
  function WithSession(c: seq<(string, Value)>): seq<(string, Value)> {
    var session := Lookup(c, "session");
    if session.None? || session.value.Null? then Store(c, "session", Str("Rest Day")) else c
  }

  /** Every None value becomes the empty string. */
  function Filled(c: seq<(string, Value)>): (r: seq<(string, Value)>)
    ensures |r| == |c| && forall i :: 0 <= i < |c| ==> r[i].0 == c[i].0 && r[i].1 != Null
    ensures UniqueKeys(c) ==> UniqueKeys(r)
  {
    seq(|c|, i requires 0 <= i < |c| => (c[i].0, if c[i].1 == Null then Str("") else c[i].1))
  }

  /** One cleaned record. */
  function CleanRecord(record: Value): (r: Result<seq<(string, Value)>>)
    ensures !record.Dict? ==> r == Err(NoAttribute(record, "items"))
    ensures r.Ok? ==> forall i :: 0 <= i < |r.value| ==> r.value[i].1 != Null
  {
    if !record.Dict? then Err(NoAttribute(record, "items"))
    else
      var dated :- WithDate(Renamed(record.entries));
      Ok(Filled(WithSession(dated)))
  }

  /**
   * The records a step reads: a dict's `result` list, the event itself when
   * it is a list, else `event.get('records', event.get('data', [event]))`.
   */
  function UnwrapRecords(event: Value): (r: Result<Value>)
    ensures event.List? ==> r == Ok(event)
    ensures event.Dict? && Lookup(event.entries, "result").Some? && Lookup(event.entries, "result").value.List?
            ==> r == Ok(Lookup(event.entries, "result").value)
    ensures !event.Dict? && !event.List? ==> r == Err(NoAttribute(event, "get"))
  {
    match event
    case List(_) => Ok(event)
    case Dict(e) =>
      var result := Lookup(e, "result");
      if result.Some? && result.value.List? then Ok(result.value)
      else
        var fallback := match Lookup(e, "data") case Some(v) => v case None => List([event]);
        (match Lookup(e, "records")
         case Some(v) => Ok(v)
         case None => Ok(fallback))
    case _ => Err(NoAttribute(event, "get"))
  }

  function DictValues(rs: seq<seq<(string, Value)>>): (vs: seq<Value>)
    ensures |vs| == |rs| && forall i :: 0 <= i < |rs| ==> vs[i] == Dict(rs[i])
  {
    seq(|rs|, i requires 0 <= i < |rs| => Dict(rs[i]))
  }

  /** What `clean_sessions_df_records` returns. */
  function CleanSessions(event: Value): (r: Result<Value>)
  {
    var source :- UnwrapRecords(event);
    var records :- Iterate(source);
    var cleaned :- MapAll(CleanRecord, records);
    Ok(List(DictValues(cleaned)))
  }

  /** `clean_sessions_df_records`: the record loop, collecting one cleaned record per input record. */
  method CleanSessionsDfRecords(event: Value) returns (r: Result<Value>)
    ensures r == CleanSessions(event)
  {
    var source :- UnwrapRecords(event);
    var records :- Iterate(source);
    var cleanedRecords: seq<seq<(string, Value)>> := [];
    var n := 0;
    while n < |records|
      invariant 0 <= n <= |records|
      invariant MapAll(CleanRecord, records[..n]) == Ok(cleanedRecords)
    {
      var cleanedRecord := CleanOneRecord(records[n]);
      if cleanedRecord.Err? {
        MapAllStops(CleanRecord, records, n);
        return Err(cleanedRecord.exc);
      }
      MapAllExtends(CleanRecord, records, n, cleanedRecords);
      cleanedRecords := cleanedRecords + [cleanedRecord.value];
      n := n + 1;
    }
    assert records[..n] == records;
    return Ok(List(DictValues(cleanedRecords)));
  }

  /** The body of the record loop: the rename loop, the date and session fixes and the None-fill loop. */
  method CleanOneRecord(record: Value) returns (r: Result<seq<(string, Value)>>)
    ensures r == CleanRecord(record)
  {
    if !record.Dict? {
      return Err(NoAttribute(record, "items"));
    }
    var cleanedRecord := RenameColumns(record.entries);
    if "date" in Keys(cleanedRecord) {
      var dateObj := ParseDate(Lookup(cleanedRecord, "date").value);
      if dateObj.Err? {
        return Err(dateObj.exc);
      }
      StoreKeepsUnique(cleanedRecord, "date", Str(FormatDate(dateObj.value.date)));
      cleanedRecord := Store(cleanedRecord, "date", Str(FormatDate(dateObj.value.date)));
    }
    assert WithDate(Renamed(record.entries)) == Ok(cleanedRecord);
    var session := Lookup(cleanedRecord, "session");
    if session.None? || session.value.Null? {
      StoreKeepsUnique(cleanedRecord, "session", Str("Rest Day"));
      cleanedRecord := Store(cleanedRecord, "session", Str("Rest Day"));
    }
    cleanedRecord := FillNone(cleanedRecord);
    return Ok(cleanedRecord);
  }

  /** `for old_key, value in record.items(): …`: rename through the column mapping and drop `s` and `r`. */
  method RenameColumns(entries: seq<(string, Value)>) returns (cleanedRecord: seq<(string, Value)>)
    ensures cleanedRecord == Renamed(entries)
  {
    cleanedRecord := [];
    var i := 0;
    while i < |entries|
      invariant 0 <= i <= |entries|
      invariant cleanedRecord == Renamed(entries[..i])
    {
      assert entries[..i + 1][..i] == entries[..i];
      var newKey := RenameKey(entries[i].0);
      if !Dropped(newKey) {
        cleanedRecord := Store(cleanedRecord, newKey, entries[i].1);
      }
      i := i + 1;
    }
    assert entries[..i] == entries;
  }

  /** `for key in d: if d[key] is None: d[key] = ''` */
  method FillNone(c: seq<(string, Value)>) returns (d: seq<(string, Value)>)
    requires UniqueKeys(c)
    ensures d == Filled(c)
  {
    d := c;
    var i := 0;
    while i < |d|
      invariant 0 <= i <= |d| == |c|
      invariant forall j :: 0 <= j < |c| ==> d[j] == if j < i then Filled(c)[j] else c[j]
      invariant UniqueKeys(d)
    {
      var key := d[i].0;
      FillAt(d, i);
      if Lookup(d, key) == Some(Null) {
        d := Store(d, key, Str(""));
      }
      i := i + 1;
    }
  }

  /** One turn of the None-fill loop replaces the value at position `i` only, and only when it is None. */
  lemma FillAt(d: seq<(string, Value)>, i: nat)
    requires UniqueKeys(d) && i < |d|
    ensures var d' := if Lookup(d, d[i].0) == Some(Null) then Store(d, d[i].0, Str("")) else d;
      && d' == d[i := (d[i].0, if d[i].1 == Null then Str("") else d[i].1)]
      && UniqueKeys(d')
  {
    LookupAt(d, i);
    StoreAt(d, i, Str(""));
    var d' := d[i := (d[i].0, if d[i].1 == Null then Str("") else d[i].1)];
    assert forall j :: 0 <= j < |d| ==> d'[j].0 == d[j].0;
  }
  // ---------------------------------------------------------------------------
  // What the cleaning guarantees

  /** The value the rename loop leaves under `k`: that of the last entry renamed to `k`, unless `k` is dropped. */
  function RenamedValue(e: seq<(string, Value)>, k: string): (r: Option<Value>)
    ensures r.Some? ==> !Dropped(k) && exists i :: 0 <= i < |e| && RenameKey(e[i].0) == k && e[i].1 == r.value
    decreases |e|
  {
    if |e| == 0 then None
    else
      var last := |e| - 1;
      if !Dropped(k) && RenameKey(e[last].0) == k then Some(e[last].1)
      else
        var r := RenamedValue(e[..last], k);
        assert r.Some? ==> exists i :: 0 <= i < last && RenameKey(e[i].0) == k && e[i].1 == r.value by {
          if r.Some? {
            var i :| 0 <= i < last && RenameKey(e[..last][i].0) == k && e[..last][i].1 == r.value;
            assert e[..last][i] == e[i];
          }
        }
        r
  }

  /** The rename loop keeps, under each new name, the value of the last entry renamed to it. */
  lemma {:induction false} LookupRenamed(e: seq<(string, Value)>, k: string)
    ensures Lookup(Renamed(e), k) == RenamedValue(e, k)
    decreases |e|
  {
    if |e| > 0 {
      var last := |e| - 1;
      LookupRenamed(e[..last], k);
      var newKey := RenameKey(e[last].0);
      if !Dropped(newKey) {
        LookupStore(Renamed(e[..last]), newKey, e[last].1, k);
      }
    }
  }

  /** A renamed key is never one of the mapping's source names. */
  lemma RenameKeyNotSource(k: string)
    ensures RenameKey(k) !in Keys(ColumnMapping)
  {
    assert Keys(ColumnMapping) == ["Suggested Warm-Up", "A.", "B.", "C.", "D.", "E."];
  }

  /** Renaming twice is renaming once. */
  lemma RenameKeyIdempotent(k: string)
    ensures RenameKey(RenameKey(k)) == RenameKey(k)
  {
    RenameKeyNotSource(k);
  }

  /** After the rename loop no key is `s`, `r` or a source name of the mapping. */
  lemma RenamedKeysAreClean(e: seq<(string, Value)>, k: string)
    requires k in Keys(Renamed(e))
    ensures !Dropped(k) && k !in Keys(ColumnMapping)
  {
    LookupRenamed(e, k);
    var i :| 0 <= i < |e| && RenameKey(e[i].0) == k && e[i].1 == RenamedValue(e, k).value;
    RenameKeyNotSource(e[i].0);
  }

  /** The None-fill keeps every key and replaces exactly the None values. */
  lemma {:induction false} LookupFilled(c: seq<(string, Value)>, k: string)
    ensures Lookup(Filled(c), k) == if Lookup(c, k) == Some(Null) then Some(Str("")) else Lookup(c, k)
    decreases |c|
  {
    if |c| > 0 {
      assert Filled(c)[1..] == Filled(c[1..]);
      LookupFilled(c[1..], k);
    }
  }

  lemma KeysFilled(c: seq<(string, Value)>)
    ensures Keys(Filled(c)) == Keys(c)
  {
  }

  /** The session fix adds `session` when missing and otherwise changes only a None session. */
  lemma WithSessionFacts(c: seq<(string, Value)>, k: string)
    ensures k in Keys(WithSession(c)) <==> k in Keys(c) || k == "session"
    ensures Lookup(WithSession(c), k)
            == if k == "session" && (Lookup(c, k).None? || Lookup(c, k).value.Null?) then Some(Str("Rest Day")) else Lookup(c, k)
  {
    KeysStore(c, "session", Str("Rest Day"));
    LookupStore(c, "session", Str("Rest Day"), k);
  }

  /** The date fix keeps the keys and rewrites only `date`, as the `YYYY-MM-DD` form of its parse. */
  lemma WithDateFacts(c: seq<(string, Value)>, k: string)
    requires WithDate(c).Ok?
    ensures Keys(WithDate(c).value) == Keys(c)
    ensures k != "date" ==> Lookup(WithDate(c).value, k) == Lookup(c, k)
    ensures "date" in Keys(c) ==>
      && ParseDate(Lookup(c, "date").value).Ok?
      && Lookup(WithDate(c).value, "date") == Some(Str(FormatDate(ParseDate(Lookup(c, "date").value).value.date)))
  {
    if "date" in Keys(c) {
      var v := ParseDate(Lookup(c, "date").value).value;
      KeysStore(c, "date", Str(FormatDate(v.date)));
      LookupStore(c, "date", Str(FormatDate(v.date)), k);
      LookupStore(c, "date", Str(FormatDate(v.date)), "date");
    }
  }

  /** The keys of a cleaned record are the renamed keys plus `session`, none of them `s`, `r` or a source name. */
  lemma CleanedKeys(record: Value, k: string)
    requires CleanRecord(record).Ok?
    ensures var c := Renamed(record.entries); var r := CleanRecord(record).value;
      && (k in Keys(r) <==> k in Keys(c) || k == "session")
      && (k in Keys(r) && k != "session" ==> !Dropped(k) && k !in Keys(ColumnMapping))
  {
    var c := Renamed(record.entries);
    var dated := WithDate(c).value;
    WithDateFacts(c, k);
    WithSessionFacts(dated, k);
    KeysFilled(WithSession(dated));
    if k in Keys(c) {
      RenamedKeysAreClean(record.entries, k);
    }
  }

  /** `session` is `'Rest Day'` exactly when the renamed record has no session or a None one; an empty string is kept. */
  lemma CleanedSession(record: Value)
    requires CleanRecord(record).Ok?
    ensures var s := Lookup(Renamed(record.entries), "session");
      Lookup(CleanRecord(record).value, "session") == if s.None? || s.value.Null? then Some(Str("Rest Day")) else s
  {
    var c := Renamed(record.entries);
    var dated := WithDate(c).value;
    WithDateFacts(c, "session");
    WithSessionFacts(dated, "session");
    LookupFilled(WithSession(dated), "session");
  }

  /** A `date` of the renamed record comes out as the `YYYY-MM-DD` form of its parse. */
  lemma CleanedDate(record: Value)
    requires CleanRecord(record).Ok? && "date" in Keys(Renamed(record.entries))
    ensures var v := Lookup(Renamed(record.entries), "date").value;
      && ParseDate(v).Ok?
      && Lookup(CleanRecord(record).value, "date") == Some(Str(FormatDate(ParseDate(v).value.date)))
  {
    var c := Renamed(record.entries);
    var dated := WithDate(c).value;
    WithDateFacts(c, "date");
    WithSessionFacts(dated, "date");
    LookupFilled(WithSession(dated), "date");
  }

  /** Every other key keeps its renamed value, a None becoming `''`. */
  lemma CleanedOthers(record: Value, k: string)
    requires CleanRecord(record).Ok? && k != "date" && k != "session"
    ensures var v := Lookup(Renamed(record.entries), k);
      Lookup(CleanRecord(record).value, k) == if v == Some(Null) then Some(Str("")) else v
  {
    var c := Renamed(record.entries);
    var dated := WithDate(c).value;
    WithDateFacts(c, k);
    WithSessionFacts(dated, k);
    LookupFilled(WithSession(dated), k);
  }

  /** A cleaned record is a dict: no key occurs twice. */
  lemma CleanedKeysUnique(record: Value)
    requires CleanRecord(record).Ok?
    ensures UniqueKeys(CleanRecord(record).value)
  {
    var c := Renamed(record.entries);
    var dated := WithDate(c).value;
    if "date" in Keys(c) {
      var v := Str(FormatDate(ParseDate(Lookup(c, "date").value).value.date));
      assert dated == Store(c, "date", v);
      StoreKeepsUnique(c, "date", v);
    }
    StoreKeepsUnique(dated, "session", Str("Rest Day"));
    assert UniqueKeys(WithSession(dated));
  }

  /** A record whose `date` already reads `YYYY-MM-DD`, as every record by day does, keeps that date. */
  lemma FormattedDateIsKept(c: seq<(string, Value)>, d: Date)
    requires UniqueKeys(c) && ValidDate(d) && d.year >= 1000
    requires Lookup(c, "date") == Some(Str(FormatDate(d)))
    ensures WithDate(c) == Ok(c)
  {
    ParseFormatDate(d);
    var i :| 0 <= i < |c| && c[i] == ("date", Str(FormatDate(d)));
    StoreAt(c, i, Str(FormatDate(d)));
    assert c[i := (c[i].0, Str(FormatDate(d)))] == c;
  }

  /** Cleaning keeps the number and the order of the records. */
  lemma CleanKeepsOrder(event: Value)
    requires CleanSessions(event).Ok?
    ensures var records := Iterate(UnwrapRecords(event).value).value;
      var out := CleanSessions(event).value;
      && out.List? && |out.items| == |records|
      && forall i :: 0 <= i < |records| ==> CleanRecord(records[i]).Ok? && out.items[i] == Dict(CleanRecord(records[i]).value)
  {
  }

}
