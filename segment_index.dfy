/** The index of recorded segments behind the `record` command: selecting
    one segment file by its capture time (`getRecFileRange`, main.go:432-488)
    and collecting the selected segments of a directory walk (`getRecords`,
    main.go:311-334), with a memo of segment records keyed by capture time.

    The file system enters as data: opening and stat-ing a path gives a
    `FileProbe`, and `filepath.Walk` is the sequence of `WalkEvent`s it
    would deliver to the callback, in walk order. */
module SegmentIndex {
  import opened Base
  import opened Paths
  import opened Timestamps
  import opened FlvTail

  /** `RecFileInfo` (main.go:75-80): a segment as the query reports it. */
  datatype RecFileInfo = RecFileInfo(url: string, size: nat, timestamp: int, duration: uint32)

  /** What `os.Open(dstPath)` followed by `f.Stat()` gives: one of the two
      errors, or the bytes of the file (its size is their number). */
  datatype FileProbe = OpenFails | StatFails | Opened(data: seq<byte>)

  /** The errors `getRecFileRange` returns. */
  datatype RangeError =
    | TempFile(file: string)  // "temp file " + file
    | TypeMismatch            // "file types do not match"
    | OpenFailed              // the error of os.Open
    | StatFailed              // the error of Stat
    | NotFound                // "not found record file"

  /** The environment of the index: `config.SavePath`, the zone that
      `time.LoadLocation("Local")` gives, and `GetMP4Duration` as a function
      of the file's bytes. */
  datatype Config = Config(savePath: string, zone: Zone, mp4Duration: seq<byte> -> uint32)

  /** The memo: `gc` maps a capture time to the record built for it. */
  type Memo = map<int, RecFileInfo>

  // ------------------------------------------------- one segment file

  /** `p` of `getRecFileRange`: the path without the save path, with every
      `\` turned into `/`. */
  function RelPath(savePath: string, dstPath: string): string
  {
    ToSlash(TrimPrefix(dstPath, savePath))
  }

  /** The segment kind an extension names, compared case-insensitively. */
  function KindOf(ext: string): Option<Kind> {
    if Lower(ext) == ".flv" then Some(Flv)
    else if Lower(ext) == ".mp4" then Some(Mp4)
    else None
  }

  /** The url a segment is reported under: `p` without one leading `/`. */
  function Url(p: string): string {
    TrimPrefix(p, "/")
  }

  /** The inputs for which `getRecFileRange` does not panic: the base name
      is not empty (`file[0:1]`), and a media file's path is long enough for
      its timestamp window. */
  predicate NoPanic(savePath: string, dstPath: string) {
    var p := RelPath(savePath, dstPath);
    var file := Basename(p);
    && file != []
    && (file[0] != '.' && KindOf(Ext(file)).Some? ==> |p| >= WindowStart(KindOf(Ext(file)).value))
  }

  /** A base name starting with `.` is a file still being written. */
  predicate Hidden(savePath: string, dstPath: string)
    requires NoPanic(savePath, dstPath)
  {
    Basename(RelPath(savePath, dstPath))[0] == '.'
  }

  /** The kind of a visible file, if its extension names one. */
  function FileKind(savePath: string, dstPath: string): Option<Kind>
    requires NoPanic(savePath, dstPath)
  {
    if Hidden(savePath, dstPath) then None else KindOf(Ext(Basename(RelPath(savePath, dstPath))))
  }

  /** The capture time of a visible media file. */
  function Stamp(cfg: Config, dstPath: string): int
    requires NoPanic(cfg.savePath, dstPath) && FileKind(cfg.savePath, dstPath).Some?
  {
    KindTimestamp(RelPath(cfg.savePath, dstPath), FileKind(cfg.savePath, dstPath).value, cfg.zone)
  }

  /** `begin.Before(ts) && end.After(ts)`: strictly inside the query. */
  predicate InRange(begin: int, ts: int, end: int) {
    begin < ts < end
  }

  /** The duration reader of a kind applied to the file's bytes. */
  function Duration(cfg: Config, kind: Kind, data: seq<byte>): uint32 {
    if kind == Flv then TailDuration(data) else cfg.mp4Duration(data)
  }

  /** The record built on a cache miss. */
  function NewRecord(cfg: Config, dstPath: string, data: seq<byte>): RecFileInfo
    requires NoPanic(cfg.savePath, dstPath) && FileKind(cfg.savePath, dstPath).Some?
  {
    RecFileInfo(Url(RelPath(cfg.savePath, dstPath)), |data|, Stamp(cfg, dstPath),
      Duration(cfg, FileKind(cfg.savePath, dstPath).value, data))
  }

  /** The memo block of `getRecFileRange`: on a hit, the stored record,
      without opening the file; on a miss, the record of a segment of `kind`
      reported under `url`, built from the opened file and stored under
      `ts`. An entry is never replaced, a failure stores nothing, and what
      is returned is what the memo then holds under `ts`. */
  function Memoized(cfg: Config, url: string, kind: Kind, ts: int, probe: FileProbe, memo: Memo)
    : (r: (Result<RecFileInfo, RangeError>, Memo))
    ensures forall k :: k in memo ==> k in r.1 && r.1[k] == memo[k]
    ensures r.0.Err? ==> r.1 == memo
    ensures r.0.Ok? ==> ts in r.1 && r.1[ts] == r.0.value
  {
    if ts in memo then (Ok(memo[ts]), memo)
    else
      match probe
      case OpenFails => (Err(OpenFailed), memo)
      case StatFails => (Err(StatFailed), memo)
      case Opened(data) =>
        var rec := RecFileInfo(url, |data|, ts, Duration(cfg, kind, data));
        (Ok(rec), memo[ts := rec])
  }

  /** What `getRecFileRange(dstPath, begin, end)` returns, and the memo
      after it. */
  function RangeLookup(cfg: Config, dstPath: string, begin: int, end: int, probe: FileProbe, memo: Memo)
    : (r: (Result<RecFileInfo, RangeError>, Memo))
    requires NoPanic(cfg.savePath, dstPath)
    ensures forall k :: k in memo ==> k in r.1 && r.1[k] == memo[k]
    ensures r.0.Err? ==> r.1 == memo
  {
    if Hidden(cfg.savePath, dstPath) then (Err(TempFile(Basename(RelPath(cfg.savePath, dstPath)))), memo)
    else if FileKind(cfg.savePath, dstPath).None? then (Err(TypeMismatch), memo)
    else
      var ts := Stamp(cfg, dstPath);
      if !InRange(begin, ts, end) then (Err(NotFound), memo)
      else Memoized(cfg, Url(RelPath(cfg.savePath, dstPath)), FileKind(cfg.savePath, dstPath).value, ts, probe, memo)
  }

  /** A url the index reports: no `\`, and a visible media base name. */
  predicate SegmentUrl(url: string) {
    var file := Basename(url);
    '\\' !in url && file != [] && file[0] != '.' && KindOf(Ext(file)).Some?
  }

  /** Every memo entry is stored under its own capture time. */
  predicate Keyed(memo: Memo) {
    forall k :: k in memo ==> memo[k].timestamp == k
  }

  /** Every memo entry is the record of a visible media file, stored under
      its own capture time. */
  predicate MemoValid(memo: Memo) {
    Keyed(memo) && forall k :: k in memo ==> SegmentUrl(memo[k].url)
  }

  // ---------------------------------------------------- the whole walk

  /** One call of the walk callback: a path and what opening it gives, or
      the error `filepath.Walk` passes in. */
  datatype WalkEvent = Visit(path: string, probe: FileProbe) | Failure(message: string)

  /** The callback's extension test: `filepath.Ext` of the whole path. */
  predicate Selected(path: string) {
    Lower(Ext(path)) == ".flv" || Lower(Ext(path)) == ".mp4"
  }

  predicate WalkNoPanic(savePath: string, events: seq<WalkEvent>) {
    forall i :: 0 <= i < |events| && events[i].Visit? && Selected(events[i].path) ==>
      NoPanic(savePath, events[i].path)
  }

  /** The named results of `getRecords` and the memo after the walk. */
  datatype Outcome = Outcome(files: seq<RecFileInfo>, err: Option<string>, memo: Memo)

  /** `getRecords` over the remaining `events`, having collected `files`:
      the files found keep walk order after those already collected, and
      the memo only grows. */
  function Walk(cfg: Config, begin: int, end: int, events: seq<WalkEvent>, files: seq<RecFileInfo>, memo: Memo)
    : (o: Outcome)
    requires WalkNoPanic(cfg.savePath, events)
    ensures files <= o.files
    ensures forall k :: k in memo ==> k in o.memo && o.memo[k] == memo[k]
    decreases |events|
  {
    if events == [] then Outcome(files, None, memo)
    else
      assert WalkNoPanic(cfg.savePath, events[1..]) by {
        forall i | 0 <= i < |events[1..]| ensures events[1..][i] == events[i + 1] {}
      }
      match events[0]
      case Failure(m) => Outcome(files, Some(m), memo)
      case Visit(path, probe) =>
        if !Selected(path) then Walk(cfg, begin, end, events[1..], files, memo)
        else
          var (res, memo') := RangeLookup(cfg, path, begin, end, probe, memo);
          Walk(cfg, begin, end, events[1..], if res.Ok? then files + [res.value] else files, memo')
  }

  lemma WalkNoPanicTail(savePath: string, events: seq<WalkEvent>)
    requires events != [] && WalkNoPanic(savePath, events)
    ensures WalkNoPanic(savePath, events[1..])
  {
    forall i | 0 <= i < |events[1..]| ensures events[1..][i] == events[i + 1] {}
  }

  /** One selected visit: the walk looks the file up and goes on with what
      the lookup gives, appending the record when there is one. */
  lemma WalkVisit(cfg: Config, begin: int, end: int, events: seq<WalkEvent>, files: seq<RecFileInfo>, memo: Memo)
    requires WalkNoPanic(cfg.savePath, events) && events != [] && events[0].Visit? && Selected(events[0].path)
    ensures WalkNoPanic(cfg.savePath, events[1..])
    ensures var r := RangeLookup(cfg, events[0].path, begin, end, events[0].probe, memo);
      Walk(cfg, begin, end, events, files, memo) ==
      Walk(cfg, begin, end, events[1..], if r.0.Ok? then files + [r.0.value] else files, r.1)
  {
    WalkNoPanicTail(cfg.savePath, events);
  }

  /** The name and type tests of `getRecFileRange`: the path below the
      save path with `/` separators, and the kind of the file, or the error
      for a hidden file or a file of another type. */
  method ClassifyPath(savePath: string, dstPath: string) returns (p: string, kind: Result<Kind, RangeError>)
    requires NoPanic(savePath, dstPath)
    ensures p == RelPath(savePath, dstPath)
    ensures kind.Ok? <==> FileKind(savePath, dstPath).Some?
    ensures kind.Ok? ==> kind.value == FileKind(savePath, dstPath).value
    ensures kind.Err? && Hidden(savePath, dstPath) ==> kind.error == TempFile(Basename(p))
    ensures kind.Err? && !Hidden(savePath, dstPath) ==> kind.error == TypeMismatch
  {
    p := TrimPrefix(dstPath, savePath);
    p := ToSlash(p);
    var file := Basename(p);
    // file[0:1] == ".": the first byte of the base name
    if file[0] == '.' {
      return p, Err(TempFile(file));
    }
    var ext := Lower(Ext(file));
    if ext == ".flv" {
      kind := Ok(Flv);
    } else if ext == ".mp4" {
      kind := Ok(Mp4);
    } else {
      kind := Err(TypeMismatch);
    }
  }

  // ------------------------------------------------- the stateful index

  /** The process-wide memo `gc` together with the configuration the
      index functions read. */
  class RecordIndex {
    const cfg: Config
    var entries: Memo

    /** Every entry is stored under its own capture time. */
    ghost predicate Valid()
      reads this
    {
      Keyed(entries)
    }

    /** `gcache.New(100).LRU().Build()`: an empty memo. */
    constructor(cfg: Config)
      ensures this.cfg == cfg && entries == map[] && Valid()
    {
      this.cfg := cfg;
      entries := map[];
    }

    /** `getRecFileRange(dstPath, begin, end)`, where `probe` is what
        opening `dstPath` would give. */
    method GetRecFileRange(dstPath: string, begin: int, end: int, probe: FileProbe)
      returns (res: Result<RecFileInfo, RangeError>)
      requires NoPanic(cfg.savePath, dstPath) && Valid()
      modifies this
      ensures (res, entries) == RangeLookup(cfg, dstPath, begin, end, probe, old(entries))
      ensures res.Ok? ==> InRange(begin, res.value.timestamp, end)
      ensures Valid()
    {
      var p, kind := ClassifyPath(cfg.savePath, dstPath);
      if kind.Err? {
        return Err(kind.error);
      }
      var timestamp := KindTimestamp(p, kind.value, cfg.zone);
      if begin < timestamp && timestamp < end {
        res := LookupOrBuild(Url(p), kind.value, timestamp, probe);
        return;
      }
      return Err(NotFound);
    }

    /** The memo block of `getRecFileRange`: `gc.Get(timestamp)`, and on a
        miss `os.Open`, `Stat`, the duration reader of the kind and
        `gc.SetWithExpire`. */
    method LookupOrBuild(url: string, kind: Kind, timestamp: int, probe: FileProbe)
      returns (res: Result<RecFileInfo, RangeError>)
      requires Valid()
      modifies this
      ensures (res, entries) == Memoized(cfg, url, kind, timestamp, probe, old(entries))
      ensures res.Ok? ==> res.value.timestamp == timestamp
      ensures Valid()
    {
      if timestamp in entries {
        return Ok(entries[timestamp]);
      }
      match probe
      case OpenFails =>
        return Err(OpenFailed);
      case StatFails =>
        return Err(StatFailed);
      case Opened(data) =>
        var duration;
        if kind == Flv {
          var f := new FileStream(data);
          duration := GetDuration(f);
        } else {
          duration := cfg.mp4Duration(data);
        }
        var rec := RecFileInfo(url, |data|, timestamp, duration);
        entries := entries[timestamp := rec];
        return Ok(rec);
    }

    /** `getRecords(begin, end)`: the callback over the walk, stopping at
        the first error the walk reports. */
    method GetRecords(begin: int, end: int, events: seq<WalkEvent>)
      returns (files: seq<RecFileInfo>, err: Option<string>)
      requires WalkNoPanic(cfg.savePath, events) && Valid()
      modifies this
      ensures Outcome(files, err, entries) == Walk(cfg, begin, end, events, [], old(entries))
      ensures forall i :: 0 <= i < |files| ==> InRange(begin, files[i].timestamp, end)
      ensures Valid()
    {
      files, err := [], None;
      var i := 0;
      while i < |events| && err.None?
        invariant 0 <= i <= |events|
        invariant WalkNoPanic(cfg.savePath, events[i..])
        invariant Valid() && forall j :: 0 <= j < |files| ==> InRange(begin, files[j].timestamp, end)
        invariant err.None? ==>
          Walk(cfg, begin, end, events, [], old(entries)) == Walk(cfg, begin, end, events[i..], files, entries)
        invariant err.Some? ==>
          Walk(cfg, begin, end, events, [], old(entries)) == Outcome(files, err, entries)
        decreases |events| - i
      {
        assert events[i..][0] == events[i] && events[i..][1..] == events[i + 1..];
        WalkNoPanicTail(cfg.savePath, events[i..]);
        match events[i] {
          case Failure(m) =>
            err := Some(m);
          case Visit(path, probe) =>
            if Selected(path) {
              WalkVisit(cfg, begin, end, events[i..], files, entries);
              var f := GetRecFileRange(path, begin, end, probe);
              if f.Ok? {
                files := files + [f.value];
              }
            }
        }
        i := i + 1;
      }
    }

    /** gcache's own eviction (capacity 100, least recently used first, and
        a twelve-hour expiry): an entry may disappear at any time. */
    method Expire(stamp: int)
      requires Valid()
      modifies this
      ensures entries == old(entries) - {stamp}
      ensures Valid()
    {
      entries := entries - {stamp};
    }
  }

  /** The url of a visible media file is a segment url. */
  lemma UrlIsSegment(savePath: string, dstPath: string)
    requires NoPanic(savePath, dstPath) && FileKind(savePath, dstPath).Some?
    ensures SegmentUrl(Url(RelPath(savePath, dstPath)))
  {
    var p := RelPath(savePath, dstPath);
    ToSlashSpec(TrimPrefix(dstPath, savePath));
    BasenameTrimSlash(p);
    var url := Url(p);
    assert "/" <= p ==> p == "/" + url;
    assert forall i :: 0 <= i < |url| ==> url[i] in p by {
      if "/" <= p {
        forall i | 0 <= i < |url| ensures url[i] in p {
          assert url[i] == p[i + 1];
        }
      }
    }
  }
}
