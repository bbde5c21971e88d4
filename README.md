# Weightlifting WOD ETL, modelled in Dafny

This project models the core of an ETL pipeline that turns a weekly
weightlifting programme, published as a blog post, into one record per
training day and stores those records in S3. The pipeline runs as a chain of
AWS Lambda steps, and the model covers these parts of it:

- **Text steps** (`transforms.py`):
  - `group_post_content_by_day` cuts the post's text into days at weekday lines;
  - `segment_days` cuts each day into blocks at sub-header lines;
  - `sessions_to_json_records_by_day` gives each day a date and turns its blocks into a record;
  - `clean_sessions_df_records` renames the columns, drops artefacts, normalises dates and fills in empty values.
  - All four rest on `partition_by`, `get_pairwise_series_indexes`, `get_groups` and `group_source_by`.
- **Storage handlers** (`handler.py`):
  - `dump_post_to_bucket` writes a raw post once. It is guarded by an idempotency table in DynamoDB and by an existence test on the bucket.
  - `save_sessions_to_bucket` normalises the records' dates. It writes the week's records as JSON Lines under a path named by the week's first and last dates, unless an object is already there.
  - The decorated `clean_sessions_df_records` entry point is modelled too.
- **Idempotency service** (`services/idempotency_service.py`):
  - keys are SHA-256 digests of `operation:identifier`;
  - a fail-open `check`;
  - a fail-open `mark_complete` that writes a TTL item.
- **The `lambda_handler` decorator** (`utils/decorators.py`) stamps every response with a correlation id and turns exceptions into error dicts.
- **Configuration** (`config.py`): `Config.from_env` validates the environment, and `get_config` caches the result.

How Python maps into the model:

- **Values:** Python values are a `Value` datatype (`py.dfy`). A dict is an ordered sequence of entries, so insertion order, overwriting and `{**a, **b}` behave as in Python.
- **Exceptions:** a raised exception is an `Err` of `Result`, carrying the exception class and message.
- **Stores:** S3 buckets and DynamoDB tables are maps held by the class `Stores.Aws`. The handlers' methods update them in place.
- **Inputs:** the outside world enters as parameters:
  - the environment;
  - the clock (`today` as a date ordinal, `now` in microseconds since the epoch);
  - the correlation id that `uuid4` would produce;
  - and, for each store request, whether it fails (`Stores.Faults`).

The handler functions `Handler.DumpPost` and `Handler.SaveSessions` are the specifications. The methods `Handler.DumpPostToBucket` and `Handler.SaveSessionsToBucket` perform the same steps on the shared stores and are proved equal to them. The lemmas state what the source promises: a post is written once, nothing else is touched, failures are reported, and the dates are normalised and bound the week.

Where the code and the repository's design notes or tests disagree, the model follows the code:

- `segment_days` names a day's session by its whole first sub-header line (`x[0][0]`), not by the text after the weekday name.
- `sessions_to_json_records_by_day` takes its dates from `date.today()` only. The code has no chain of slug, title and post date.
- `clean_sessions_df_records` does not add the six canonical columns when they are missing. It keeps an empty `session` string and replaces only a missing or `None` one.
- The metadata-preservation tests (`tests/test_transforms.py:118-192`) expect `post_date`, `slug` and `title` to be carried through the steps. The code drops them, and the model follows the code.

## Model

| member | source | states |
|---|---|---|
| Grouping.MatchesOf | transforms.py:7-13 | the reported pairs are matching items at their own indices, in strictly increasing index order |
| Grouping.PartitionBy | transforms.py:7-13 | the loop collects exactly the matching `(index, item)` pairs: each reported item satisfies the predicate at its index, and every matching item is reported |
| Grouping.MatchesOfComplete | transforms.py:10-12 | every item that satisfies the predicate is reported |
| Grouping.NotMatched | transforms.py:10-12 | a position that is not reported holds an item that fails the predicate |
| Grouping.NoMatches | transforms.py:7-13 | a source with no matching item yields no matches |
| Grouping.GetPairwiseSeriesIndexes | transforms.py:16-27 | k matches give the k-1 pairs of consecutive indices, none for an empty list |
| Grouping.Slice | transforms.py:36 | Python slicing `s[lo:hi]`: within range it is the subsequence, out-of-range bounds are clipped |
| Grouping.GetGroups | transforms.py:30-36 | `get_groups`: one slice of the source per index pair, in the order of the pairs |
| Grouping.Grouped | transforms.py:39-52 | what `group_source_by` returns: no groups without a match, otherwise the slices between consecutive matches, closed by one running to the end |
| Grouping.GroupSourceBy | transforms.py:39-52 | fewer than two matches give no groups; otherwise group j is the source from match j up to match j+1, or to the end for the last match |
| Grouping.GroupedFewMatches | transforms.py:43-50 | a single match yields `[]`, because no pair is formed and so no closing pair is appended |
| Grouping.GroupAt | transforms.py:46-52 | there is one group per match, and group j is the slice between match j and the next match or the end |
| Grouping.GroupedShape | transforms.py:39-52 | every group spans from its match to the next one, or to the end |
| Grouping.FirstGroupNonEmpty | transforms.py:39-52 | the first group, when there is one, is non-empty |
| Grouping.GroupsAreDelimited | transforms.py:39-52 | each group starts with a marker item and holds no other marker |
| Grouping.SpanHasOneMarker | transforms.py:46-50 | no item strictly between match j and the next match or the end satisfies the predicate |
| Grouping.DroppedPrefixHasNoMarker | transforms.py:41-52 | the items dropped before the first match hold no marker |
| Grouping.GroupedConcat | transforms.py:39-52 | concatenating the groups gives back the source from the first marker on |
| Text.Split | transforms.py:73 | `split('\n')` gives at least one part, none holding a newline |
| Text.JoinSplit | transforms.py:73 | joining the lines with newlines gives back the text |
| Text.SplitSingleLine | transforms.py:73 | a text without a newline is a single line |
| Transforms.PostText | transforms.py:67-71 | a dict post gives its `text` (`''` when absent); any other post gives `str(post)` |
| Transforms.IsWeekdayLine | transforms.py:60-65 | the day regex finds a weekday name, in any case, somewhere in the line |
| Transforms.GroupPostContentByDay | transforms.py:55-80 | succeeds exactly when the text can be read; the result's only key is `sessions`, holding the days of the text as lists of lines; a failure is an AttributeError |
| Transforms.DaysAreDelimited | transforms.py:60-78 | each day starts with a weekday line and holds no other; the lines before the first weekday line are dropped |
| Transforms.FewWeekdaysNoDays | transforms.py:73-80 | a text with fewer than two weekday lines, a single one included, yields `{"sessions": []}` |
| Transforms.StepInput | transforms.py:87-91 | a `result` entry that is a dict stands in for the event, and otherwise the event is used as it is |
| Transforms.IsLetterLabel | transforms.py:84-85 | `^[A-F].$` under IGNORECASE: a letter A to F and one more character that is not a newline, optionally followed by a final newline |
| Transforms.IsSubHeader | transforms.py:84-85 | the segment regex finds `Session` or `Suggested Warm-Up` in any case, or the whole line is a letter label |
| Transforms.SegmentDay | transforms.py:93-101 | a list or string session always segments, into a non-empty list of blocks; the only failure is a TypeError |
| Transforms.OneCharNotSubHeader | transforms.py:84-85 | a one-character line never matches the sub-header pattern |
| Transforms.StringSessionIsRestDay | transforms.py:93-101 | a session given as a string is iterated by character, so it finds no sub-header |
| Transforms.SegmentDayShape | transforms.py:93-101 | a day with k >= 2 sub-header lines gives k blocks; the first is `['session', first sub-header line]` and block j is group j |
| Transforms.BlocksOfGroups | transforms.py:98-101 | the first block is `['session', x[0][0]]` and the later ones are the groups `x[1:]` |
| Transforms.SegmentDayFewMarkers | transforms.py:94-99 | a day with fewer than two sub-header lines becomes the rest-day sentinel `[['session', 'rest day']]` |
| Transforms.SegmentDayHeads | transforms.py:98-101 | every segmented day is a non-empty list whose first block is a `session` pair |
| Transforms.SegmentDays | transforms.py:83-104 | the result's only key is `segmented_sessions` |
| Transforms.SegmentDaysInOrder | transforms.py:93-101 | there is one segmented day per session, in order, each the segmentation of its session |
| Transforms.BlockEntry | transforms.py:131 | a non-empty list of strings maps its head to its other strings joined by spaces; an empty block raises IndexError |
| Transforms.SessionOf | transforms.py:130-133 | a day's session is a dict: no label occurs twice |
| Transforms.DayRecords | transforms.py:129-134 | the comprehension succeeds exactly when every day does, and then it holds each day's session in order |
| Transforms.LaterLabelWins | transforms.py:130-133 | within a day, a label maps to the joined lines of the last block that carries it |
| Transforms.WeekDates | transforms.py:119-120 | `dates[i]` is the week start plus i days |
| Transforms.DatedRecords | transforms.py:136-137 | there is one record per session |
| Transforms.DatedRecordsAt | transforms.py:136-137 | record i has `date` from `dates[i]` unless the session has its own `date` label, which wins; every other key is the session's |
| Transforms.WeekStartIsSunday | transforms.py:114-117 | the week start is a Sunday, one to seven days before today |
| Transforms.SessionsToJsonRecordsByDay | transforms.py:107-139 | a successful result is the week's records built from `segmented_sessions`, and the week start is a valid date |
| Transforms.WeekRecords | transforms.py:119-137 | the records exist only when the last date of the range is still a date and every day's session can be built |
| Transforms.RecordsByDay | transforms.py:107-139 | there is one record per segmented day, in order; record i is dated the week start plus i days, unless its day has a `date` label; every other key is the day's session |
| Transforms.WeekRecordAt | transforms.py:119-137 | record i of the week starting at `start`, as above |
| Transforms.RecordsFromSunday | transforms.py:119-137 | as written, record i without a `date` label is dated the week start plus i days, which falls on weekday i mod 7: the first record is on the Sunday |
| Transforms.DaysAfterWeekStart | transforms.py:114-120 | the day i days after the week start falls on ISO weekday i mod 7, with a Sunday (7) for 0 |
| Transforms.WeekRecordsFromMonday | transforms.py:119-137 | corrected: the records take `dates[1:]`, so record i is dated the week start plus i+1 days |
| Transforms.RecordsByDayFromMonday | transforms.py:107-139 | corrected: the records of the week starting at today's week start, dated from the following Monday |
| Transforms.RecordsFromMonday | transforms.py:129-137 | corrected: record i is dated the week start plus i+1 days, unless its day has a `date` label; every other key is the day's session |
| Transforms.WeekRecordFromMondayAt | transforms.py:129-137 | corrected: record i of the week starting at `start` is dated `start + i + 1` |
| Transforms.DayAfterWeekStartIsMonday | transforms.py:114-119 | the day after the week start, where the corrected records begin, is a Monday |
| Transforms.FromMondayAlike | transforms.py:119-137 | the corrected records exist exactly when the records as written do |
| Transforms.RenameKey | transforms.py:144-151 | `column_mapping.get(k, k)`: a mapped column gets its new name, and any other keeps its own |
| Transforms.RenameKeyNotSource | transforms.py:144-151 | a renamed key is never one of the mapping's source names |
| Transforms.RenameKeyIdempotent | transforms.py:144-151 | renaming twice is renaming once |
| Transforms.RenameStepKeepsUnique | transforms.py:166-170 | one turn of the rename loop keeps the keys unique |
| Transforms.Renamed | transforms.py:165-170 | the renamed record has unique keys |
| Transforms.RenameColumns | transforms.py:165-170 | the rename loop computes `Renamed` |
| Transforms.RenamedValue | transforms.py:165-170 | a key that the rename loop leaves in place is not `s` or `r`, and holds the value of an entry renamed to it |
| Transforms.LookupRenamed | transforms.py:165-170 | after the loop, each key holds the value of the last entry renamed to it, and `s` and `r` are gone |
| Transforms.RenamedKeysAreClean | transforms.py:165-170 | no key of the renamed record is `s`, `r` or a source name of the mapping |
| Transforms.WithDateFacts | transforms.py:172-175 | the date fix keeps the keys and changes only `date`, to the `YYYY-MM-DD` form of its parse |
| Transforms.FormattedDateIsKept | transforms.py:172-175 | a `date` already in `YYYY-MM-DD` form is kept as it is |
| Transforms.WithSessionFacts | transforms.py:177-179 | the fix adds `session` when it is missing and replaces only a `None` session with `'Rest Day'` |
| Transforms.Filled | transforms.py:181-184 | the None-fill keeps every key in its place and leaves no `None` value |
| Transforms.FillNone | transforms.py:181-184 | the None-fill loop computes `Filled` |
| Transforms.LookupFilled | transforms.py:181-184 | a `None` value becomes `''` and every other value is kept |
| Transforms.KeysFilled | transforms.py:181-184 | the None-fill keeps the keys and their order |
| Transforms.CleanRecord | transforms.py:163-186 | a record that is not a dict raises AttributeError (`.items`); a cleaned record holds no `None` |
| Transforms.CleanOneRecord | transforms.py:164-186 | the body of the record loop computes `CleanRecord` |
| Transforms.CleanedKeys | transforms.py:163-186 | a cleaned record's keys are the renamed keys plus `session`, and none is `s`, `r` or a mapped source name |
| Transforms.CleanedSession | transforms.py:177-179 | `session` is `'Rest Day'` exactly when the renamed record has none, or a `None` one; an empty string is kept |
| Transforms.CleanedDate | transforms.py:172-175 | a renamed `date` comes out as the `YYYY-MM-DD` form of its parse |
| Transforms.CleanedOthers | transforms.py:165-184 | every other key keeps its renamed value, a `None` becoming `''` |
| Transforms.CleanedKeysUnique | transforms.py:163-186 | a cleaned record is a dict: no key occurs twice |
| Transforms.UnwrapRecords | transforms.py:153-160 | a list is used as it is; a `result` list is unwrapped; anything that is neither a dict nor a list raises AttributeError (`.get`) |
| Transforms.CleanSessions | transforms.py:142-188 | what `clean_sessions_df_records` returns: the cleaned records of the unwrapped input, as a list, or the first record's error |
| Transforms.CleanSessionsDfRecords | transforms.py:142-188 | the record loop computes `CleanSessions` |
| Transforms.CleanKeepsOrder | transforms.py:162-188 | cleaning keeps the number and the order of the records; record i is the cleaned input i |
| Dates.FromOrdinal | transforms.py:117-120 | `date.fromordinal`: the valid date whose ordinal is n |
| Dates.IsoWeekday | transforms.py:115 | `isoweekday()` lies between 1 and 7 and agrees with the ordinal modulo 7 (ordinal 1 was a Monday) |
| Dates.AddDays | transforms.py:117 | `date + timedelta(days=k)` succeeds exactly when the result is a date, and otherwise raises OverflowError |
| Dates.FormatDate | transforms.py:175 | `strftime('%Y-%m-%d')`: ten characters with dashes at positions 4 and 7 |
| Dates.ParseDate | handler.py:117 | a successful parse is of an ISO-shaped string and gives a valid date-time; a non-string raises dateutil's TypeError |
| Dates.ParseFormatDate | transforms.py:174-175 | a formatted date parses back to midnight of that date |
| Dates.FormatParsedDate | handler.py:117-120 | formatting a parsed date gives back the string's leading `YYYY-MM-DD` |
| Dates.Earliest | handler.py:125 | `min(dates)`: an element that no element is before |
| Dates.Latest | handler.py:126 | `max(dates)`: an element that is before no element |
| Dates.NotBeforeTransitive | handler.py:125-126 | the order used by `min` and `max` is transitive |
| Dates.NotBeforeDates | handler.py:125-126 | a date-time no earlier than another falls on a date no earlier than the other's (`.date()`) |
| Dates.TruncSeconds | services/idempotency_service.py:93 | `int()` of the timestamp truncates toward zero |
| Dates.IsoUtc | services/idempotency_service.py:100 | `isoformat()` begins with the date and `T` and ends with `+00:00` |
| Sha256.Utf8 | services/idempotency_service.py:40 | UTF-8 takes one to four bytes per character |
| Sha256.Utf8Concat | services/idempotency_service.py:39-40 | encoding `operation:identifier` is encoding its parts in turn |
| Sha256.Pad | services/idempotency_service.py:40 | SHA-256 padding (section 5.1.1 of FIPS 180-4) keeps the message as a prefix and fills whole 64-byte blocks |
| Sha256.HexDigest | services/idempotency_service.py:40 | `hexdigest()` is 64 lower-case hexadecimal digits |
| Py.GetItem | handler.py:41-44 | `post["date"]` succeeds exactly on a dict holding the key; a missing key raises KeyError |
| Py.MapAll | transforms.py:129-134 | a comprehension succeeds exactly when every call does, keeps the order, and otherwise raises the error of a failing call |
| Py.LookupMergeLast | transforms.py:136 | in `{"date": ..., **session}` a key of the session overrides `date`, and the last assignment to a key wins |
| Py.Quote | handler.py:43-44 | `repr` of a string uses double quotes exactly when the string holds a `'` and no `"` |
| Py.EscapeChar | handler.py:43-44 | `repr` escapes the quote and the backslash, writes tab, newline and carriage return as `\t`, `\n`, `\r`, and the other non-printable characters up to U+00FF as `\xhh`; the result holds no newline |
| Py.Escape | handler.py:43-44 | the escaped string is at least as long as the string and holds no newline |
| Py.StrRepr | handler.py:43-44 | `repr(s)` is the escaped string between two copies of the quote |
| Py.Repr | handler.py:43-44 | `str()` of a list or a dict, as the `format` call writes a slug that is not a string, holds no newline |
| Py.HexValue | handler.py:43-44 | a hexadecimal digit reads back as the value it was written for |
| Py.UnescapeChar | handler.py:43-44 | reading back one escaped character gives that character |
| Py.EscapeRoundTrip | handler.py:43-44 | reading back the escaped string gives the string: the escaping is reversible |
| Py.StrReprRoundTrip | handler.py:43-44 | the text between the quotes of `repr(s)` reads back as `s` |
| Py.EscapePlain | handler.py:43-44 | printable ASCII other than the backslash and the quote is written unchanged |
| Py.ReprPrintable | handler.py:43-44 | `repr` of printable ASCII without a backslash, not holding both quotes, is the string in double quotes when it holds a `'`, otherwise in single quotes |
| Py.ReprApostrophe | handler.py:43-44 | a slug that is the list holding the string `it's` is written `["it's"]`, in double quotes |
| Stores.PutObject | services/s3_service.py:62-111 | `put_object` succeeds exactly when no ClientError occurs and the bucket exists; it then replaces one object and changes nothing else |
| Stores.HeadObject | services/s3_service.py:41-60 | an object counts as present only when the request succeeds and the bucket holds the key |
| Stores.PutObjectTouchesOnlyObject | services/s3_service.py:79-90 | a successful put changes only the object under its key |
| Stores.PutSameObject | services/s3_service.py:79-90 | putting the object a key already holds changes nothing |
| Stores.GetTableItem | services/dynamodb_service.py:31-57 | `get_item` gives the item, or None when the key is absent, or raises ClientError when the request fails or the table is missing |
| Stores.PutTableItem | services/dynamodb_service.py:59-82 | `put_item` succeeds exactly when the request does and the table exists; it then replaces one item |
| Stores.PutItemTouchesOnlyItem | services/dynamodb_service.py:74-78 | a successful put changes only the item under its key |
| Stores.Aws.ObjectExists | services/s3_service.py:41-60 | `object_exists` is true only for an object that is there; every ClientError, whether a 404 or not, reads as false |
| Stores.Aws.Put | services/s3_service.py:62-90 | the stores after `put_object` are those `PutObject` gives; a failure leaves them unchanged |
| Stores.Aws.GetItem | services/dynamodb_service.py:31-57 | as `GetTableItem`, and nothing changes |
| Stores.Aws.PutItem | services/dynamodb_service.py:59-82 | the stores after `put_item` are those `PutTableItem` gives; a failure leaves them unchanged |
| Idempotency.GenerateKey | services/idempotency_service.py:27-40 | the key is the 64-digit lower-case SHA-256 hex digest of `operation:identifier` |
| Idempotency.SeparatorCollision | services/idempotency_service.py:39-40 | any two pairs whose `operation:identifier` strings are equal share a key |
| Idempotency.SeparatorShift | services/idempotency_service.py:39-40 | for all strings, `(a:b, c)` and `(a, b:c)` are different pairs with the same key |
| Idempotency.Completed | services/idempotency_service.py:42-73 | what `check` returns: true exactly for a configured table whose request succeeds with a non-empty item |
| Idempotency.TtlTimestamp | services/idempotency_service.py:93 | the expiry in whole seconds, `ttl_hours` hours after the current instant |
| Idempotency.MarkedComplete | services/idempotency_service.py:75-106 | the stores after `mark_complete`: unchanged when the table is unset, the expiry is out of range or the write fails, otherwise with the completion item written |
| Idempotency.CompletionItem | services/idempotency_service.py:97-101 | the item holds exactly `idempotency_key`, `ttl` (as a number string) and `completed_at` |
| Idempotency.IdempotencyService.constructor | services/idempotency_service.py:17-25 | the service keeps its table name and its DynamoDB client |
| Idempotency.IdempotencyService.Check | services/idempotency_service.py:42-73 | `check` changes nothing and is true exactly when the table is configured and the request finds a non-empty item |
| Idempotency.IdempotencyService.MarkComplete | services/idempotency_service.py:75-106 | `mark_complete` never raises; the new stores are those `MarkedComplete` describes |
| Idempotency.Unconfigured | services/idempotency_service.py:55-57 | without a table name, `check` is false and `mark_complete` changes nothing |
| Idempotency.CheckReadsItem | services/idempotency_service.py:59-73 | with a table name, `check` is true exactly when the request succeeds and finds a non-empty item; a failing request reads as false |
| Idempotency.ExpiredStillCompleted | services/idempotency_service.py:59-69 | `check` ignores `ttl`, so an item whose expiry is past still counts |
| Idempotency.MarkWritesOneItem | services/idempotency_service.py:90-102 | a successful mark writes one item, holding the key, the expiry and the completion time, under the key; nothing else changes |
| Idempotency.MarkTouchesOnlyItem | services/idempotency_service.py:86-106 | whatever fails, `mark_complete` leaves the buckets alone and writes at most its own item |
| Idempotency.MarkThenCheck | services/idempotency_service.py:42-106 | after a successful `mark_complete`, `check` on the same key is true |
| Idempotency.TtlIsHoursLater | services/idempotency_service.py:92-93 | from the epoch on, the expiry is the current whole second plus `ttl_hours` hours |
| Configuration.Get | config.py:51-53 | `os.environ.get(name)` is None exactly for an unset variable |
| Configuration.GetOr | config.py:47-58 | `os.environ.get(name, default)` |
| Configuration.UpperChar | config.py:58 | `upper()` of one character: ASCII letters are shifted and other characters are kept, except `ı` and `ſ` |
| Configuration.Upper | config.py:58 | `upper()` as modelled maps each character by `UpperChar` |
| Configuration.UpperIdempotent | config.py:58 | upper-casing twice is upper-casing once |
| Configuration.IsDisplayOrder | config.py:64 | a display order of `valid_log_levels` lists each valid level once |
| Configuration.DisplayOrderComplete | config.py:64 | a display order lists every valid level |
| Configuration.SetRepr | config.py:64 | the set in the message is written between braces |
| Configuration.FromEnv | config.py:27-78 | an accepted configuration has a valid log level |
| Configuration.BucketRequired | config.py:35-39 | the bucket error is raised exactly when `INVICTUS_BUCKET` is unset or empty |
| Configuration.ApiRequired | config.py:41-45 | with a bucket, the API error is raised exactly when `INVICTUS_WEIGHTLIFTING_API` is unset or empty |
| Configuration.Accepted | config.py:35-65 | the configuration is accepted exactly when both required variables are set and the upper-cased level is valid |
| Configuration.LevelRejected | config.py:58-65 | an invalid level raises ValueError naming the valid levels and the upper-cased level |
| Configuration.Fields | config.py:47-78 | every present variable is copied verbatim (the level upper-cased), and absent ones take their defaults |
| Configuration.AnyCaseLevel | config.py:58-62 | a `LOG_LEVEL` in any mix of cases whose upper-case is a valid level is accepted and stored upper-cased |
| Configuration.ConfigCache.constructor | config.py:83 | `_config` starts as None |
| Configuration.ConfigCache.GetConfig | config.py:86-99 | the first successful call builds and caches the configuration; later calls return the cached one whatever the environment; a failure caches nothing |
| Configuration.ConfigCache.Reset | config.py:83 | setting `_config` back to None empties the cache, so the next call rebuilds |
| Decorators.AsDict | utils/decorators.py:51-60 | a dict result is kept; any other value becomes a one-entry dict, under `result` exactly for a list or a string |
| Decorators.Stamp | utils/decorators.py:62-65 | the stamping fails exactly when `metadata` is present and not a dict, and then with a TypeError |
| Decorators.ErrorResponse | utils/decorators.py:74-109 | the error dict has the keys `error` and `metadata`, in that order |
| Decorators.AssignmentError | utils/decorators.py:65 | assigning into a metadata entry that is not a dict raises TypeError |
| Decorators.Wrap | utils/decorators.py:32-120 | the decorated handler never raises (only the model's own out-of-model marker passes through) and always answers with a dict |
| Decorators.StampedEverywhere | utils/decorators.py:46-120 | every response, success or error, carries the correlation id under `metadata` |
| Decorators.DictResultKept | utils/decorators.py:62-72 | a dict result keeps every other key and its place; `metadata` is added at the end if it was missing |
| Decorators.MetadataKept | utils/decorators.py:62-65 | an existing metadata dict keeps its other keys and gains `correlation_id`, or has it overwritten |
| Decorators.NonDictWrapped | utils/decorators.py:51-65 | a list or string comes back under `result`, and any other non-dict under `data`, each followed by `metadata` |
| Decorators.SingleEntryStamped | utils/decorators.py:62-65 | a one-entry dict gains the metadata entry after its own |
| Decorators.BadMetadataReported | utils/decorators.py:62-65 | a metadata entry that is not a dict makes the stamping raise TypeError, which is reported as an error dict |
| Decorators.ErrorShape | utils/decorators.py:74-120 | an exception becomes `{"error": {type, message, correlation_id}, "metadata": {correlation_id, handler}}`, with type `ValidationError` exactly for a ValueError |
| Handler.RawPath | handler.py:41-44 | the raw path lies under `raw/`, with the slug written by `str()` |
| Handler.Title | handler.py:55-66 | `post["title"]["rendered"]`, read by the log call of every branch |
| Handler.DumpPost | handler.py:35-79 | what `dump_post_to_bucket` returns and leaves in the stores, branch by branch |
| Handler.DumpPostToBucket | handler.py:35-79 | step by step on the shared stores, the handler does what `DumpPost` specifies |
| Handler.DumpOutcome | handler.py:38-79 | an invocation that raises changes nothing, and one that returns, returns the post |
| Handler.DumpRaisesEarly | handler.py:38-44 | without a configuration, or with a `date` or `slug` that cannot be read, the handler raises before touching the stores |
| Handler.DumpSkipsCompleted | handler.py:54-56 | a post already recorded in the table is not written again; it is returned unless reading its title raises |
| Handler.DumpMarksExisting | handler.py:59-63 | an object already at the path is not rewritten, and the key is recorded unless that write fails |
| Handler.DumpWritesPost | handler.py:59-77 | when neither store knows the post, the invocation succeeds exactly when the title is there and the write succeeds; the object holds the post with its key and operation; the key is recorded unless that write fails |
| Handler.DumpTouchesOnlyItsObject | handler.py:51-77 | whatever fails, an invocation writes at most the post's own object and its own idempotency item |
| Handler.DumpKeepsWrittenObject | handler.py:59-77 | once the bucket holds the object the invocation would write, no invocation changes the buckets |
| Handler.DumpTwiceWritesOnce | handler.py:51-77 | after a first invocation that writes the post, a second one with the same post, at any time and whatever fails, leaves the bucket as the first left it |
| Handler.DumpTwiceOneRawObject | handler.py:43-77 | two invocations with the same post, starting from an empty bucket, leave exactly one object in it, under `raw/` |
| Handler.DumpHandlerResponds | handler.py:35-79 | the decorated handler always answers with a dict carrying the correlation id, and keeps the stores as the body left them |
| Handler.RewriteRecord | handler.py:115-120 | a record with a `date` has it parsed and rewritten as `YYYY-MM-DD`, yielding the parsed date; any other record is kept |
| Handler.FoundDatesStep | handler.py:114-120 | one more turn of the loop appends its record and, if it found one, its date |
| Handler.FoundDatesFrom | handler.py:114-118 | every date in `dates` was found on some record |
| Handler.FoundDatesHas | handler.py:114-118 | a record on which the loop found a date contributes that date to `dates` |
| Handler.FoundNoDates | handler.py:114-118 | a loop that finds no date leaves `dates` empty |
| Handler.RewriteDates | handler.py:114-120 | the loop stops at the first record that raises, with its error; otherwise it returns the rewritten records and the found dates |
| Handler.RewriteWeek | handler.py:98-126 | a week is built only from valid first and last dates |
| Handler.WeekOf | handler.py:98-126 | the week is the rewritten records, bounded by `min` and `max` of the found dates, and at least one date was found |
| Handler.SaveRewritesDates | handler.py:114-120 | every record comes back in its place, with its date normalised when it is a dated dict and untouched otherwise |
| Handler.SaveRefusesUndated | handler.py:122-123 | records none of which has a date are refused with `ValueError("No dates found in session records")`, and nothing is written |
| Handler.DatedAt | handler.py:115-118 | a record on which the loop found a date is a dated dict, and the date is its parsed `date` |
| Handler.FoundDatesBounded | handler.py:125-126 | every found date lies between the earliest and the latest |
| Handler.FoundDatesEnds | handler.py:125-126 | the earliest and the latest dates were each found on some record |
| Handler.SaveWeekBounds | handler.py:114-129 | every dated record falls within the week the path names |
| Handler.SaveWeekEnds | handler.py:125-129 | the week's first and last dates are the dates of dated records |
| Handler.SaveRaisesEarly | handler.py:96-123 | without a configuration, or when the records cannot be read or hold no date, the save raises and writes nothing |
| Handler.SaveWritesIfAbsent | handler.py:128-142 | the weekly object is written only when absent, as the rewritten records in JSON Lines form, and nothing else changes; the response is the records under `records`; the call fails exactly when the write does |
| Handler.WeeklyPath | handler.py:128-129 | the weekly path lies under `weekly/` |
| Handler.SaveSessions | handler.py:93-142 | what `save_sessions_to_bucket` returns and leaves in the stores |
| Handler.SaveSessionsToBucket | handler.py:93-142 | step by step on the shared stores, the handler does what `SaveSessions` specifies |
| Handler.SaveHandlerResponds | handler.py:93-142 | a successful decorated save answers `{"records": records, "metadata": {"correlation_id": id}}` |
| Handler.CleanSessionsDfRecords | handler.py:145-152 | the decorated cleaning step answers with the cleaned list under `result` next to the correlation id, and reports a failure as the decorator's error dict |

## Findings

| source | as written | input that shows it | evidently intended | confidence | as-written member | corrected member |
|---|---|---|---|---|---|---|
| transforms.py:119-137 | record `i` is dated `dates[i]`, so the first record gets the Sunday that starts the week. The comprehension walks `dates[1:]`, builds one date more than it uses, and never uses that date | any `today`, e.g. Wednesday 2024-04-03 with one segmented day: the week starts on 2024-03-31 and the record is dated `2024-03-31` | record `i` dated `dates[i + 1]`, so the first session falls on the Monday (`2024-04-01`), as the repository's tests expect | not executed; high | Transforms.RecordsFromSunday | Transforms.RecordsFromMonday |

`Transforms.SessionsToJsonRecordsByDay` models the code as written, and the corrected `Transforms.RecordsByDayFromMonday` sits beside it. No other part of the model consumes either one.

## Left out

- HTTP and queue I/O are outside the model: `get_invictus_post`, `services/invictus_api_service.py` and `queque.py` call external services.
- `strip_post_html` is outside the model: it delegates to BeautifulSoup's HTML parser.
- Logging in every module is outside the model, including `logger_config.py` and `traceback.format_exc()`. Only the side effect of the log calls is modelled: the f-strings in `dump_post_to_bucket` read `post["title"]["rendered"]`, which can raise.
- `json.dumps` serialisation is not modelled. An S3 object holds the value itself (`Stores.Body`), not its text.
- The S3 and DynamoDB clients are abstract maps. Lazy client creation, botocore's exact error messages and request metadata are not modelled; the ClientError messages are representative.
- Concurrency is not modelled. Two invocations that run between each other's check and write can both write, and the model runs invocations one after another.
- Aliasing is not modelled. The decorator and the date loop of `save_sessions_to_bucket` mutate the caller's dicts in place, and the model returns new values instead.
- Configuration.ConfigCache.GetConfig: returns an equal configuration, not the same object.
- Idempotency.TtlTimestamp: computes in exact integers. Python goes through a float timestamp, which can differ only after about the year 2106.
- Dates.ParseDate: accepts only the ISO forms `YYYY-MM-DD[(T| )HH:MM[:SS]]` with a year of at least 1000. Every other string, which dateutil may still parse, is out of the model (`OutOfModel`), as are time zones and fractions of a second.
- Configuration.UpperChar: follows `str.upper` only for ASCII letters, `ı` and `ſ`. Other non-ASCII letters are kept unchanged.
- Configuration.Upper: keeps the length, because it maps character by character. Python's `upper` can lengthen a string (`ß` becomes `SS`).
- Py.EscapeChar: treats every character above U+00FF as printable. Python escapes the non-printable ones among them as `\uhhhh` or `\Uhhhhhhhh`, which needs the Unicode character database.
- Configuration.SetRepr: the order in which Python prints the set of valid levels depends on string hashing, so it is an input (`order`).
- Decorators.Wrap: exceptions outside `Exception` (`KeyboardInterrupt`, `SystemExit`) are not modelled; the source does not catch them either.
- Idempotency.GenerateKey: the model computes SHA-256 exactly but claims nothing about collisions.
- The UTF-8 encoding treats every `char` as a Unicode scalar value. Lone surrogates, which make Python's `encode` raise, are not modelled.
- Input shapes the model does not follow are reported as `OutOfModel` rather than with Python's exact exception. Examples are sessions holding values other than strings and lists, and dict keys that are not strings.
- The repository's tests expect a slug-and-title date chain in `sessions_to_json_records_by_day` that the code does not have. The model follows the code.
- `utils/exceptions.py` is not part of this model, because no core function raises its classes.
