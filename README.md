# Recorded-segment index of the MQTT recording plugin

The plugin records live streams to disk. FLV segments are stored as
`<stream>/YYYY/MM/DD/hhmmss.flv` and MP4 segments as
`<stream>/YYYY-MM-DD/hh-mm-ss.mp4`, below a configured save path. When a
client asks for the recordings between two times, `getRecords` walks the save
path. It hands every `.flv` and `.mp4` file to `getRecFileRange`, which does
the following for one file:

- it rejects hidden files (a base name starting with `.`, a file still being
  written) and files of other types;
- it reads the capture time back out of the path (`getFlvTimestamp` and
  `getMp4Timestamp`, over `getTimestamp`);
- it keeps the file only if that time lies strictly between the bounds;
- it builds a `RecFileInfo` (url, size, capture time, duration) and stores
  it in a process-wide memo keyed by capture time.

For FLV files the duration is the timestamp of the last tag (`getDuration`).
The query bounds themselves are parsed by `strToDatetime`.

The project is split into these files:

- `base.dfy`: the byte and fixed-width integer types, and Option/Result.
- `paths.dfy`: the Go library helpers the index calls:
  - `strings.TrimPrefix`, `strings.ReplaceAll(p, "\\", "/")`, `strings.ToLower`;
  - `path.Split` (base name) and `path.Ext`, with lemmas about them.
- `timestamps.dfy`:
  - Go's `time.ParseInLocation`, as an interpreter over the three layouts used ("2006/01/02/150405", "2006-01-02/15-04-05", "2006-01-02 15:04:05"), and `Time.Format` as its partner;
  - `getTimestamp`, `getFlvTimestamp`, `getMp4Timestamp` and `strToDatetime`.
- `flv_tail.dfy`:
  - `getDuration`, as a method over a `FileStream` class (the file's bytes and a seek offset);
  - the function `TailDuration`, which specifies it;
  - the FLV tag header codec it reads (section E.4.1 of the Adobe Flash Video File Format Specification 10.1).
- `segment_index.dfy`:
  - the record, the probe of a file and the errors;
  - `RangeLookup` (the function model of `getRecFileRange`) and `Walk` (the function model of `getRecords`);
  - the class `RecordIndex`, whose `entries` field is the memo `gc`, with the methods `GetRecFileRange`, `LookupOrBuild` and `GetRecords` proved equal to those functions.
- `segment_properties.dfy`: what a lookup and a walk promise, proved about `RangeLookup` and `Walk`.
- `scenarios.dfy`: a worked example, in UTC+8. It uses the segments `hk/2021/09/24/143046.flv` and `live/hw/2021-10-09/15-38-05.mp4` and the query for the day 2021-09-24.

Model conventions:

- Times are whole Unix seconds.
- The local zone is a fixed offset from UTC, or unavailable.
- A Go string is a `string` with one `char` per byte.
- The file system is given as data:
  - a file that is looked up is a `FileProbe`: it fails to open, fails to stat, or has these bytes;
  - the walk is the sequence of callback calls `filepath.Walk` makes (`WalkEvent`).

## Model

| member | source | states |
|---|---|---|
| Timestamps.QueryRoundTrip | main.go:507-509 | `strToDatetime` reads back every valid date and time written in "2006-01-02 15:04:05" as that time's Unix seconds in the configured zone |
| Timestamps.WindowParseIff | main.go:521-532 | the window of a segment path parses to a time exactly when it is the layout's rendering of that valid time (both directions of the round trip) |
| Timestamps.KindTimestampMeaning | main.go:511-532 | a segment path whose window renders a valid time gets that time in the zone's offset; a window that does not parse, or a zone that cannot be loaded, gives the Unix epoch |
| Timestamps.ParseThenFormat | main.go:527 | on a layout without spaces, an input of the layout's width that parses is exactly what Format writes for the parsed fields |
| Timestamps.FormatThenParse | main.go:527 | parsing what Format wrote reads back every field the layout mentions |
| Timestamps.ParseKeepsUnmentioned | main.go:527 | the parse loop sets only the fields its layout mentions |
| Timestamps.Parse | main.go:527 | a successful parse has fields in range and a day that exists in its month |
| Timestamps.ReadField | main.go:527 | a field read consumes 4 digits for the year, exactly 2 for month, day, minute and second, 1 or 2 for the hour, and checks each field's range |
| Timestamps.Window | main.go:522 | the parsed window has the layout's width: bytes len-21..len-4 for FLV and len-23..len-4 for MP4 |
| FlvTail.GetDuration | main.go:490-505 | the seek-and-read walk over the file returns `TailDuration` of the file's bytes |
| FlvTail.TailDurationFailures | main.go:490-505 | a file shorter than 4 bytes, a last tag size reaching before the start of the file, or a header cut off by the end of the file gives 0 |
| FlvTail.WellFormedTail | main.go:490-505 | a file ending in a tag whose DataSize is its payload's length, followed by its correct PreviousTagSize, has the duration written in that tag's header, whatever precedes the tag |
| FlvTail.FileStream.SeekEnd | main.go:491 | seeking relative to the end succeeds exactly when the position is not before the start of the file, and then moves there |
| FlvTail.FileStream.ReadUint32BE | main.go:494 | four bytes at the offset are read big-endian and the offset moves past them; when fewer remain the read fails and the offset is left at the end of the file |
| FlvTail.FileStream.ReadTagHeader | main.go:497 | eleven header bytes at the offset are decoded and the offset moves past them; when fewer remain the read fails and the offset is left at the end of the file |
| FlvTail.HeaderRoundTrip | main.go:497 | decoding an encoded tag header gives the header back |
| FlvTail.HeaderBytesRoundTrip | main.go:497 | encoding a decoded eleven-byte header gives the bytes back |
| FlvTail.BE32RoundTrip | main.go:494 | reading back the four big-endian bytes of a uint32 gives the value |
| FlvTail.FullTimestamp | main.go:497 | TimestampExtended is the upper byte and Timestamp the lower 24 bits of the tag's 32-bit time |
| SegmentIndex.RecordIndex.GetRecFileRange | main.go:432-488 | the method's result and new memo are `RangeLookup` of the path, bounds, file and old memo; a returned record lies strictly inside the range; the memo stays keyed by capture time |
| SegmentIndex.RecordIndex.LookupOrBuild | main.go:451-485 | a hit returns the stored record; a miss opens the file, builds the record with the kind's duration reader and stores it; open or stat failures store nothing; a returned record carries the asked capture time |
| SegmentIndex.RecordIndex.GetRecords | main.go:311-334 | the loop over the walk returns the files, error and memo of `Walk` from an empty list; every returned record lies strictly inside the range |
| SegmentIndex.RecordIndex.constructor | main.go:108 | the memo starts empty |
| SegmentIndex.RecordIndex.Expire | main.go:481 | the cache's own eviction removes one entry and nothing else |
| SegmentIndex.Memoized | main.go:452-485 | existing entries are never replaced, a failure stores nothing, and a success returns what the memo then holds under the capture time |
| SegmentIndex.RangeLookup | main.go:432-488 | a lookup only adds to the memo, and an error leaves the memo unchanged |
| SegmentIndex.Walk | main.go:311-334 | the files found keep walk order after those already collected, and the memo only grows |
| SegmentIndex.UrlIsSegment | main.go:466-476 | the url of a visible media file has no backslash and a visible media base name |
| SegmentProperties.RangeLookupOkIff | main.go:436-488 | a file yields a record exactly when it is visible, has a media extension, lies strictly inside the range, and its time is in the memo or the file opens |
| SegmentProperties.RejectedBeforeLookup | main.go:436-487 | hidden files, other types and out-of-range files give "temp file", "file types do not match" or "not found record file", independent of the memo and the file, and store nothing |
| SegmentProperties.HitIgnoresFile | main.go:482-484 | on a hit the stored record is returned whatever the file now holds, and the memo is unchanged |
| SegmentProperties.MissBuildsRecord | main.go:453-481 | on a miss a readable file gives its url, size, capture time and kind's duration, stored under its time; an open or stat failure returns that error and stores nothing |
| SegmentProperties.UrlRebuildsPath | main.go:433-468 | for any path that starts with the save path, the url put back behind the save path (with the dropped `/`, if any) gives the path with its backslashes turned into `/`, and a path without backslashes comes back unchanged |
| SegmentProperties.MemoizedKeepsValid | main.go:452-485 | the memo block stores and returns only records of the time it was asked for, under the url it was given |
| SegmentProperties.RangeLookupKeepsValid | main.go:432-488 | a returned record lies strictly inside the range and names a visible media file, and the memo keeps that invariant |
| SegmentProperties.SameStampSharesRecord | main.go:452-484 | two segments with one capture time share the first one's record once it is stored |
| SegmentProperties.WalkErrorIsFirstFailure | main.go:312-332 | `getRecords` returns the first error the walk reports, and none when there was none; lookup errors are never returned |
| SegmentProperties.WalkAppend | main.go:311-334 | walking `a + b` is walking `b` from where `a` left off, unless `a` ended in an error |
| SegmentProperties.WalkStopsAtFailure | main.go:313-332 | everything after the first walk error is ignored |
| SegmentProperties.WalkFilesSound | main.go:316-323 | every reported record lies strictly inside the range and names a visible media file, and the memo keeps that invariant |
| SegmentProperties.LookupByStamp | main.go:451-487 | a lookup in terms of the visit's capture time and record: none means an error, a time in the memo gives the stored record, a new time gives the visit's record |
| SegmentProperties.WalkKeepsAbsent | main.go:311-334 | a time no visit is looked up under stays out of the memo |
| SegmentProperties.WalkFirstVisit | main.go:316-323 | with a consistent memo, one visit adds its own record, if any, and stores it under its time |
| SegmentProperties.WalkCollects | main.go:311-334 | with distinct times and a consistent memo, the walk collects exactly the records of the visits up to the first error, in walk order |
| SegmentProperties.WalkKeepsConsistent | main.go:311-334 | with distinct capture times, a memo consistent with the visits stays consistent through the walk |
| SegmentProperties.FreshWalkIsFilter | main.go:311-334 | from an empty memo and with distinct capture times, the files are exactly the visible, in-range media segments that open, up to the first error, in walk order |
| SegmentProperties.RerunGivesSameFiles | main.go:311-334 | with distinct capture times and a consistent memo, running the same query again over the memo the first run left reports the same files and error |
| SegmentProperties.WalkCovers | main.go:311-334 | after a walk, every visit up to the first error that would be read (visible, media, in range, opening) has its capture time in the memo |
| SegmentProperties.RerunReadsNothing | main.go:451-484 | running the same query again over the memo the first run left opens no file to build a record: every such visit is a hit and the memo is unchanged, whatever the capture times |
| SegmentProperties.WalkPair | main.go:311-334 | two selected visits in a row add the records of their two lookups, the second looked up in the memo the first left |
| SegmentProperties.CollisionRepeatsRecord | main.go:452-484 | from an empty memo, two in-range segments with one capture time are both reported with the first one's record, where each should be reported with its own |
| SegmentProperties.RerunAfterCollisionGrows | main.go:452-484 | when the first of two segments with one capture time fails to open, a rerun over the memo the first run left reports the second segment's record twice, where the first run reported it once |
| Scenarios.MidnightBound | main.go:507-509 | "2021-09-dd 00:00:00" parses to that midnight for every day of September 2021 |
| Scenarios.QueryDay | main.go:507-509 | the midnights of 2021-09-24 and 2021-09-25 in UTC+8 are 1632412800 and 1632499200 |
| Scenarios.HkTimestamp | main.go:511-514 | a path whose FLV window reads "2021/09/24/143046" has capture time 1632465046 in UTC+8 |
| Scenarios.HwTimestamp | main.go:516-519 | a path whose MP4 window reads "2021-10-09/15-38-05" has capture time 1633765085 in UTC+8 |
| Scenarios.HkSegment | main.go:432-446 | the FLV segment is selected, visible, of kind FLV, captured at 1632465046 and reported under `hk/2021/09/24/143046.flv` |
| Scenarios.HwSegment | main.go:432-446 | the MP4 segment is selected, visible, of kind MP4, captured at 1633765085 and reported under `live/hw/2021-10-09/15-38-05.mp4` |
| Scenarios.HkLookup | main.go:451-485 | the query for 2021-09-24 stores and returns the FLV segment's record with its size and tail duration |
| Scenarios.HwLookup | main.go:451-487 | the MP4 segment of 2021-10-09 is "not found" for that query, and the memo is unchanged |
| Scenarios.DayWalk | main.go:311-334 | a walk over both segments reports the FLV segment only, with no error, and leaves it in the memo |

## Left out

- The MQTT client, its handlers, the upload command, the ffmpeg process and
  the JSON encoding of records are not part of this model. Neither is
  `getRecordFiles`, which only reads its two bounds with `strToDatetime` and
  passes them on.
- `GetMP4Duration` is defined outside main.go. It is a parameter of the
  configuration (`mp4Duration`) applied to the file's bytes.
- `codec.ReadFLVTag` is modelled as reading the eleven-byte tag header. Its
  reading of the tag body is not modelled: only the header's timestamp is used.
  `WellFormedTail` therefore asks that the tag's DataSize be its payload's
  length, so that reading the body would succeed too.
- `ReadByteToUint32(file, true)` is modelled as a four-byte big-endian read.
- The cache `gc` is a map from capture time to record. Its capacity of 100,
  least-recently-used order and twelve-hour expiry are represented only by
  `Expire`, which drops one entry between calls of the index's methods.
  `GetRecords` equals `Walk`, which never evicts, so an eviction in the
  middle of a walk is not modelled. In particular, with the capacity of 100
  a query over more than 100 in-range segments evicts its own first
  entries, and running it again would open those files again.
- The logging and the timing of slow lookups are left out.
- Time zones are a fixed offset from UTC. Loading the zone database and
  daylight-saving changes are not modelled. A failed `LoadLocation("Local")`
  gives the epoch, as the code does.
- Go's parser accepts fractional seconds after the seconds field. This is not
  modelled: the segment windows have a fixed width, so only query strings
  could contain them.
- StrToDatetime: the query bounds are parsed without a fractional-seconds
  suffix, so a bound such as "2021-09-24 00:00:00.5" is rejected here. Go
  accepts it.
- `strings.ToLower` is modelled for ASCII letters only. The result is only
  compared with ".flv" and ".mp4", and no other character lowers to one of
  their characters.
- The cases where Go panics are preconditions (`NoPanic`, `WalkNoPanic`):
  - an empty base name (`file[0:1]`);
  - a path too short for its timestamp window.
- The file system walk is its sequence of callback calls. The order and the
  directory traversal of `filepath.Walk` are not modelled. The callback does
  not tell directories from files: a directory whose name ends in `.flv` or
  `.mp4` is a visit like any other, looked up with the probe that opening and
  stat-ing the directory gives.
- The cache key is the Unix second. Go compares `time.Time` keys with the
  same location as equal exactly when they denote the same instant, so this
  is the same key.
- On a time collision, the code stores a record only on a miss: the first
  file read keeps the entry, and a later file with the same capture time gets
  that record (`SameStampSharesRecord`).
- The hidden-file test looks at the base name only: a dot-directory higher
  up the path does not make a file hidden.
- SegmentProperties.WalkKeepsConsistent: holds only when no two visits are
  looked up under the same capture time (`DistinctStamps`), because the memo
  is keyed by capture time; `CollisionRepeatsRecord` shows what happens
  otherwise.
- SegmentProperties.FreshWalkIsFilter: holds only with distinct capture
  times; with a collision the walk repeats the first record
  (`CollisionRepeatsRecord`).
- SegmentProperties.RerunGivesSameFiles: holds only with distinct capture
  times and a memo consistent with the visits; after a collision whose first
  file failed to open, a rerun reports more files (`RerunAfterCollisionGrows`).
  Like `RerunReadsNothing`, it also assumes nothing is evicted between the
  two runs.
- SegmentProperties.RerunReadsNothing: holds only while nothing is evicted
  between the two runs (no `Expire`, and at most 100 in-range segments).
- SegmentIndex.RecordIndex.GetRecords: its postcondition states that every
  returned record lies inside the range. That each one also names a visible
  media file is proved about `Walk`, which the method
  equals (`WalkFilesSound`), and not kept as the class invariant: the class
  invariant is only that the memo is keyed by capture time.

## Findings

| source | as written | input that shows it | evidently intended | confidence | as-written member | corrected member |
|---|---|---|---|---|---|---|
| main.go:452-484 | the memo is keyed by the capture time alone, so a second segment with the same capture time gets the first segment's record | two streams recorded in the same second inside the query, e.g. `hk/2021/09/24/143046.flv` and `cam/2021/09/24/143046.flv`, from an empty memo | each segment reported with its own url, size and duration | medium, not executed | SegmentProperties.CollisionRepeatsRecord | SegmentProperties.FreshWalkIsFilter |
| main.go:452-484 | a time whose file failed to open is stored later by another segment with that time, so a rerun returns that record for both visits | `hk/2021/09/24/143046.flv` fails to open and `cam/2021/09/24/143046.flv` opens; the query is run twice | the same query over the same files reports the same files | medium, not executed | SegmentProperties.RerunAfterCollisionGrows | SegmentProperties.RerunGivesSameFiles |
