/** A worked example: a recording server in UTC+8 holds an FLV segment of
    the stream "hk" captured at 2021-09-24 14:30:46 local time, and an MP4
    segment of "live/hw" captured at 2021-10-09 15:38:05; the query asks for
    the day of 2021-09-24. */
module Scenarios {
  import opened Base
  import opened Paths
  import opened Timestamps
  import opened FlvTail
  import opened SegmentIndex
  import opened SegmentProperties

  /** UTC+8, in seconds east of UTC. */
  const Utc8: int := 28800

  // ------------------------------------------------------ the query bounds

  /** The query layout as its six pieces. */
  lemma QueryPieces(dt: DateTime)
    requires FieldRanges(dt)
    ensures Format(QueryLayout, dt) ==
      Format([LongYear, Lit('-')], dt) + (Format([ZeroMonth, Lit('-')], dt) + (Format([ZeroDay, Space], dt) +
      (Format([Hour, Lit(':')], dt) + (Format([ZeroMinute, Lit(':')], dt) + Format([ZeroSecond], dt)))))
  {
    var a: Layout, b: Layout, c: Layout, d: Layout, e: Layout, f: Layout :=
      [LongYear, Lit('-')], [ZeroMonth, Lit('-')], [ZeroDay, Space], [Hour, Lit(':')], [ZeroMinute, Lit(':')], [ZeroSecond];
    assert QueryLayout == a + (b + (c + (d + (e + f))));
    FormatConcat(a, b + (c + (d + (e + f))), dt);
    FormatConcat(b, c + (d + (e + f)), dt);
    FormatConcat(c, d + (e + f), dt);
    FormatConcat(d, e + f, dt);
    FormatConcat(e, f, dt);
  }

  /** The date pieces of a day of September 2021. */
  lemma SeptemberDate(dt: DateTime)
    requires dt.year == 2021 && dt.month == 9 && 0 <= dt.day < 100 && FieldRanges(dt)
    ensures Format([LongYear, Lit('-')], dt) == "2021-" && Format([ZeroMonth, Lit('-')], dt) == "09-"
    ensures Format([ZeroDay, Space], dt) == Pad(dt.day, 2) + " "
  {
    SeptemberYear(dt);
    FormatPair(ZeroMonth, Lit('-'), dt);
    assert Pad(9, 2) == "09";
    FormatPair(ZeroDay, Space, dt);
  }

  lemma SeptemberYear(dt: DateTime)
    requires dt.year == 2021 && FieldRanges(dt)
    ensures Format([LongYear, Lit('-')], dt) == "2021-"
  {
    FormatPair(LongYear, Lit('-'), dt);
    assert Pad(2021, 4) == "2021";
  }

  /** The clock pieces of midnight. */
  lemma MidnightClock(dt: DateTime)
    requires dt.hour == 0 && dt.minute == 0 && dt.second == 0 && FieldRanges(dt)
    ensures Format([Hour, Lit(':')], dt) == "00:" && Format([ZeroMinute, Lit(':')], dt) == "00:"
    ensures Format([ZeroSecond], dt) == "00"
  {
    FormatPair(Hour, Lit(':'), dt);
    FormatPair(ZeroMinute, Lit(':'), dt);
    FormatSingle(ZeroSecond, dt);
    assert Pad(0, 2) == "00";
  }

  lemma Flatten(day: string)
    ensures "2021-" + ("09-" + ((day + " ") + ("00:" + ("00:" + "00")))) == "2021-09-" + day + " 00:00:00"
  {
  }

  /** Midnight of a day of September 2021 in the query layout. */
  lemma MidnightText(dt: DateTime, day: string)
    requires dt == DateTime(2021, 9, dt.day, 0, 0, 0) && 1 <= dt.day < 31 && day == Pad(dt.day, 2)
    ensures Format(QueryLayout, dt) == "2021-09-" + day + " 00:00:00"
  {
    QueryPieces(dt);
    SeptemberDate(dt);
    MidnightClock(dt);
    Flatten(day);
  }

  /** "2021-09-dd 00:00:00" parses back to that midnight, for every day
      of September 2021. */
  lemma MidnightBound(dt: DateTime, day: string)
    requires dt == DateTime(2021, 9, dt.day, 0, 0, 0) && 1 <= dt.day < 31 && day == Pad(dt.day, 2)
    ensures StrToDatetime("2021-09-" + day + " 00:00:00", Utc8) == Some(UnixSeconds(dt, Utc8))
  {
    MidnightText(dt, day);
    QueryRoundTrip(dt, Utc8);
  }

  /** The bounds of the query for 2021-09-24 in UTC+8: "24" and "25" are the
      days written by the layout, and the two midnights in Unix seconds. */
  lemma QueryDay()
    ensures Pad(24, 2) == "24" && UnixSeconds(DateTime(2021, 9, 24, 0, 0, 0), Utc8) == 1632412800
    ensures Pad(25, 2) == "25" && UnixSeconds(DateTime(2021, 9, 25, 0, 0, 0), Utc8) == 1632499200
  {
  }

  // ------------------------------------------------------ segment paths

  /** A file `file` in the directory `dir` below the save path, with a
      media extension, a visible name and room for its timestamp window:
      the index selects it, relates it to `dir/file`, and reports it under
      that path without its leading `/`. */
  lemma VisibleSegment(savePath: string, dir: string, file: string, rel: string, dstPath: string, kind: Kind)
    requires rel == dir + "/" + file && dstPath == savePath + rel && ToSlash(rel) == rel
    requires '/' !in file && file != [] && file[0] != '.' && KindOf(Ext(file)) == Some(kind)
    requires |rel| >= WindowStart(kind)
    ensures RelPath(savePath, dstPath) == rel
    ensures NoPanic(savePath, dstPath) && Selected(dstPath)
    ensures !Hidden(savePath, dstPath) && FileKind(savePath, dstPath) == Some(kind)
  {
    SegmentRelPath(savePath, rel, dstPath);
    BasenameOfJoin(dir, file);
    VisibleKind(savePath, rel, dstPath, file, kind);
    SegmentSelected(savePath, dir, file, dstPath);
  }

  lemma SegmentRelPath(savePath: string, rel: string, dstPath: string)
    requires dstPath == savePath + rel && ToSlash(rel) == rel
    ensures RelPath(savePath, dstPath) == rel
  {
    assert TrimPrefix(dstPath, savePath) == rel;
  }

  lemma VisibleKind(savePath: string, rel: string, dstPath: string, file: string, kind: Kind)
    requires RelPath(savePath, dstPath) == rel && Basename(rel) == file
    requires file != [] && file[0] != '.' && KindOf(Ext(file)) == Some(kind) && |rel| >= WindowStart(kind)
    ensures NoPanic(savePath, dstPath) && !Hidden(savePath, dstPath) && FileKind(savePath, dstPath) == Some(kind)
  {
  }

  lemma SegmentSelected(savePath: string, dir: string, file: string, dstPath: string)
    requires dstPath == savePath + (dir + "/" + file) && '/' !in file && KindOf(Ext(file)).Some?
    ensures Selected(dstPath)
  {
    assert dstPath == (savePath + dir) + "/" + file;
    ExtOfJoin(savePath + dir, file);
  }

  // ------------------------------------------------------ the FLV segment

  /** The window of a path made of a prefix, a window-wide middle and a
      four-byte extension is the middle. */
  lemma WindowOfParts(a: string, w: string, ext: string, kind: Kind)
    requires |w| == WindowStart(kind) - WindowEnd && |ext| == WindowEnd
    ensures |a + w + ext| >= WindowStart(kind) && Window(a + w + ext, kind) == w
  {
    var p := a + w + ext;
    assert p[|a|..|a| + |w|] == w;
  }

  const HkTime := DateTime(2021, 9, 24, 14, 30, 46)

  lemma HkYear(dt: DateTime) requires dt == HkTime ensures Format([LongYear, Lit('/')], dt) == "2021/" {
    FormatPair(LongYear, Lit('/'), dt);
  }

  lemma HkMonth(dt: DateTime) requires dt == HkTime ensures Format([ZeroMonth, Lit('/')], dt) == "09/" {
    FormatPair(ZeroMonth, Lit('/'), dt);
  }

  lemma HkDay(dt: DateTime) requires dt == HkTime ensures Format([ZeroDay, Lit('/')], dt) == "24/" {
    FormatPair(ZeroDay, Lit('/'), dt);
  }

  lemma HkClock(dt: DateTime) requires dt == HkTime ensures Format([Hour, ZeroMinute, ZeroSecond], dt) == "143046" {
    FormatClock(dt);
    assert Pad(14, 2) == "14" && Pad(30, 2) == "30" && Pad(46, 2) == "46";
  }

  /** The FLV layout writes the capture time as "2021/09/24/143046". */
  lemma HkFormat(dt: DateTime) requires dt == HkTime ensures Format(FlvLayout, dt) == "2021/09/24/143046" {
    FlvPieces(dt);
    HkPieces(dt, Format([LongYear, Lit('/')], dt), Format([ZeroMonth, Lit('/')], dt),
      Format([ZeroDay, Lit('/')], dt), Format([Hour, ZeroMinute, ZeroSecond], dt));
  }

  lemma HkPieces(dt: DateTime, y: string, m: string, d: string, c: string)
    requires dt == HkTime
    requires y == Format([LongYear, Lit('/')], dt) && m == Format([ZeroMonth, Lit('/')], dt)
    requires d == Format([ZeroDay, Lit('/')], dt) && c == Format([Hour, ZeroMinute, ZeroSecond], dt)
    ensures y + (m + (d + c)) == "2021/09/24/143046"
  {
    HkYear(dt);
    HkMonth(dt);
    HkDay(dt);
    HkClock(dt);
    HkText(y, m, d, c);
  }

  lemma HkText(y: string, m: string, d: string, c: string)
    requires y == "2021/" && m == "09/" && d == "24/" && c == "143046"
    ensures y + (m + (d + c)) == "2021/09/24/143046"
  {
  }

  /** 2021-09-24 14:30:46 in UTC+8 is 2021-09-24 06:30:46 UTC. */
  lemma HkUnix() ensures UnixSeconds(HkTime, Utc8) == 1632465046 {
  }

  lemma HkWindow(p: string)
    requires p == "/hk/2021/09/24/143046.flv"
    ensures |p| >= WindowStart(Flv) && Window(p, Flv) == "2021/09/24/143046"
  {
    assert p == "/hk/" + "2021/09/24/143046" + ".flv";
    WindowOfParts("/hk/", "2021/09/24/143046", ".flv", Flv);
  }

  /** `getFlvTimestamp` of a path whose window reads "2021/09/24/143046". */
  lemma HkTimestamp(p: string)
    requires |p| >= WindowStart(Flv) && Window(p, Flv) == "2021/09/24/143046"
    ensures KindTimestamp(p, Flv, Fixed(Utc8)) == 1632465046
  {
    var dt := HkTime;
    HkFormat(dt);
    KindTimestampMeaning(p, Flv, Utc8, dt);
    HkUnix();
  }

  /** A segment path `dir/file`, where `dir` starts with `/` and neither
      part holds a backslash, is its own `ToSlash`, has base name `file`,
      and is reported without its leading `/`. */
  lemma SegmentNames(dir: string, file: string)
    requires dir != [] && dir[0] == '/' && '\\' !in dir && '\\' !in file && '/' !in file
    ensures var p := dir + "/" + file;
      ToSlash(p) == p && Basename(p) == file && Url(p) == dir[1..] + "/" + file
  {
    var p := dir + "/" + file;
    assert '\\' !in p;
    ToSlashKeeps(p);
    BasenameOfJoin(dir, file);
    assert p[1..] == dir[1..] + "/" + file;
  }

  /** A file name `stem.ext` with a visible stem and no `/` has the
      extension `.ext`. */
  lemma MediaName(stem: string, ext: string)
    requires stem != [] && stem[0] != '.' && '/' !in stem && '.' !in ext && '/' !in ext
    ensures var f := stem + "." + ext;
      f[0] != '.' && '/' !in f && Ext(f) == "." + ext
  {
    ExtOfDotted(stem, ext);
  }

  /** `dir` is an absolute directory and `stem.ext` a visible file name,
      none of them holding a backslash, and only `stem` a dot. */
  predicate PlainSegment(dir: string, stem: string, ext: string) {
    && dir != [] && dir[0] == '/' && '\\' !in dir
    && stem != [] && stem[0] != '.' && '/' !in stem && '\\' !in stem
    && '.' !in ext && '/' !in ext && '\\' !in ext
  }

  /** The directories, stems and extensions of the two sample segments. */
  lemma SamplesPlain()
    ensures PlainSegment("/hk/2021/09/24", "143046", "flv")
    ensures PlainSegment("/live/hw/2021-10-09", "15-38-05", "mp4")
  {
  }

  /** How the parts of the two sample segments join into their paths. */
  lemma SampleJoins()
    ensures "/hk/2021/09/24" + "/" + ("143046" + "." + "flv") == "/hk/2021/09/24/143046.flv"
    ensures "/live/hw/2021-10-09" + "/" + ("15-38-05" + "." + "mp4") == "/live/hw/2021-10-09/15-38-05.mp4"
    ensures "." + "flv" == ".flv" && "." + "mp4" == ".mp4"
  {
  }

  /** The two sample segments as reported, without the leading `/`. */
  lemma SampleUrls()
    ensures "/hk/2021/09/24"[1..] + "/" + ("143046" + "." + "flv") == "hk/2021/09/24/143046.flv"
    ensures "/live/hw/2021-10-09"[1..] + "/" + ("15-38-05" + "." + "mp4") == "live/hw/2021-10-09/15-38-05.mp4"
  {
  }

  /** A media file `stem.ext` in the directory `dir` below the save path,
      with a visible stem and room for its timestamp window: the index
      selects it, relates it to `dir/stem.ext`, and reports it under that
      path without its leading `/`. */
  lemma MediaSegment(savePath: string, dir: string, stem: string, ext: string, dstPath: string, kind: Kind)
    requires PlainSegment(dir, stem, ext) && KindOf("." + ext) == Some(kind)
    requires dstPath == savePath + (dir + "/" + (stem + "." + ext))
    requires |dir + "/" + (stem + "." + ext)| >= WindowStart(kind)
    ensures var rel := dir + "/" + (stem + "." + ext);
      RelPath(savePath, dstPath) == rel && Url(rel) == dir[1..] + "/" + (stem + "." + ext)
    ensures NoPanic(savePath, dstPath) && Selected(dstPath)
    ensures !Hidden(savePath, dstPath) && FileKind(savePath, dstPath) == Some(kind)
  {
    var file := stem + "." + ext;
    assert '\\' !in file;
    SegmentNames(dir, file);
    MediaName(stem, ext);
    VisibleSegment(savePath, dir, file, dir + "/" + file, dstPath, kind);
  }

  /** ".flv" and ".mp4" are already lower case, and name the two kinds. */
  lemma KindsOfExtensions()
    ensures KindOf(".flv") == Some(Flv) && KindOf(".mp4") == Some(Mp4)
  {
    LowerAt(".flv");
    LowerAt(".mp4");
  }

  /** The segment "hk/2021/09/24/143046.flv" below any save path: a visible
      FLV file captured at 1632465046, reported under its path below the
      save path. */
  lemma HkSegment(cfg: Config, rel: string, dstPath: string)
    requires cfg.zone == Fixed(Utc8) && rel == "/hk/2021/09/24/143046.flv" && dstPath == cfg.savePath + rel
    ensures NoPanic(cfg.savePath, dstPath) && Selected(dstPath)
    ensures !Hidden(cfg.savePath, dstPath) && FileKind(cfg.savePath, dstPath) == Some(Flv)
    ensures Stamp(cfg, dstPath) == 1632465046
    ensures Url(RelPath(cfg.savePath, dstPath)) == "hk/2021/09/24/143046.flv"
  {
    var dir, stem, ext := "/hk/2021/09/24", "143046", "flv";
    SamplesPlain();
    SampleJoins();
    SampleUrls();
    KindsOfExtensions();
    HkWindow(rel);
    MediaSegment(cfg.savePath, dir, stem, ext, dstPath, Flv);
    HkTimestamp(rel);
  }

  // ------------------------------------------------------ the MP4 segment

  const HwTime := DateTime(2021, 10, 9, 15, 38, 5)

  /** The MP4 layout as its six pieces. */
  lemma Mp4Pieces(dt: DateTime)
    requires FieldRanges(dt)
    ensures Format(Mp4Layout, dt) ==
      Format([LongYear, Lit('-')], dt) + (Format([ZeroMonth, Lit('-')], dt) + (Format([ZeroDay, Lit('/')], dt) +
      (Format([Hour, Lit('-')], dt) + (Format([ZeroMinute, Lit('-')], dt) + Format([ZeroSecond], dt)))))
  {
    var a: Layout, b: Layout, c: Layout, d: Layout, e: Layout, f: Layout :=
      [LongYear, Lit('-')], [ZeroMonth, Lit('-')], [ZeroDay, Lit('/')], [Hour, Lit('-')], [ZeroMinute, Lit('-')], [ZeroSecond];
    assert Mp4Layout == a + (b + (c + (d + (e + f))));
    FormatConcat(a, b + (c + (d + (e + f))), dt);
    FormatConcat(b, c + (d + (e + f)), dt);
    FormatConcat(c, d + (e + f), dt);
    FormatConcat(d, e + f, dt);
    FormatConcat(e, f, dt);
  }

  lemma HwDate(dt: DateTime)
    requires dt == HwTime
    ensures Format([LongYear, Lit('-')], dt) == "2021-" && Format([ZeroMonth, Lit('-')], dt) == "10-"
    ensures Format([ZeroDay, Lit('/')], dt) == "09/"
  {
    FormatPair(LongYear, Lit('-'), dt);
    FormatPair(ZeroMonth, Lit('-'), dt);
    FormatPair(ZeroDay, Lit('/'), dt);
  }

  lemma HwClock(dt: DateTime)
    requires dt == HwTime
    ensures Format([Hour, Lit('-')], dt) == "15-" && Format([ZeroMinute, Lit('-')], dt) == "38-"
    ensures Format([ZeroSecond], dt) == "05"
  {
    FormatPair(Hour, Lit('-'), dt);
    FormatPair(ZeroMinute, Lit('-'), dt);
    FormatSingle(ZeroSecond, dt);
    assert Pad(15, 2) == "15" && Pad(38, 2) == "38" && Pad(5, 2) == "05";
  }

  /** The MP4 layout writes the capture time as "2021-10-09/15-38-05". */
  lemma HwFormat(dt: DateTime)
    requires dt == HwTime
    ensures Format(Mp4Layout, dt) == "2021-10-09/15-38-05"
  {
    Mp4Pieces(dt);
    HwPieces(dt, Format([LongYear, Lit('-')], dt), Format([ZeroMonth, Lit('-')], dt), Format([ZeroDay, Lit('/')], dt),
      Format([Hour, Lit('-')], dt), Format([ZeroMinute, Lit('-')], dt), Format([ZeroSecond], dt));
  }

  lemma HwPieces(dt: DateTime, y: string, mo: string, d: string, h: string, mi: string, sec: string)
    requires dt == HwTime
    requires y == Format([LongYear, Lit('-')], dt) && mo == Format([ZeroMonth, Lit('-')], dt)
    requires d == Format([ZeroDay, Lit('/')], dt) && h == Format([Hour, Lit('-')], dt)
    requires mi == Format([ZeroMinute, Lit('-')], dt) && sec == Format([ZeroSecond], dt)
    ensures y + (mo + (d + (h + (mi + sec)))) == "2021-10-09/15-38-05"
  {
    HwDate(dt);
    HwClock(dt);
    HwText(y, mo, d, h, mi, sec);
  }

  lemma HwText(y: string, mo: string, d: string, h: string, mi: string, sec: string)
    requires y == "2021-" && mo == "10-" && d == "09/" && h == "15-" && mi == "38-" && sec == "05"
    ensures y + (mo + (d + (h + (mi + sec)))) == "2021-10-09/15-38-05"
  {
  }

  lemma HwValid(dt: DateTime) requires dt == HwTime ensures Valid(dt) {
  }

  /** 2021-10-09 15:38:05 in UTC+8 is 2021-10-09 07:38:05 UTC. */
  lemma HwUnix() ensures UnixSeconds(HwTime, Utc8) == 1633765085 {
  }

  lemma HwWindow(p: string)
    requires p == "/live/hw/2021-10-09/15-38-05.mp4"
    ensures |p| >= WindowStart(Mp4) && Window(p, Mp4) == "2021-10-09/15-38-05"
  {
    assert p == "/live/hw/" + "2021-10-09/15-38-05" + ".mp4";
    WindowOfParts("/live/hw/", "2021-10-09/15-38-05", ".mp4", Mp4);
  }

  /** `getMp4Timestamp` of a path whose window reads "2021-10-09/15-38-05":
      2021-10-09 07:38:05 UTC. */
  lemma HwTimestamp(p: string)
    requires |p| >= WindowStart(Mp4) && Window(p, Mp4) == "2021-10-09/15-38-05"
    ensures KindTimestamp(p, Mp4, Fixed(Utc8)) == 1633765085
  {
    var dt := HwTime;
    HwFormat(dt);
    HwValid(dt);
    KindTimestampMeaning(p, Mp4, Utc8, dt);
    HwUnix();
  }

  /** The segment "live/hw/2021-10-09/15-38-05.mp4" below any save path: a
      visible MP4 file captured at 1633765085. */
  lemma HwSegment(cfg: Config, rel: string, dstPath: string)
    requires cfg.zone == Fixed(Utc8) && rel == "/live/hw/2021-10-09/15-38-05.mp4" && dstPath == cfg.savePath + rel
    ensures NoPanic(cfg.savePath, dstPath) && Selected(dstPath)
    ensures !Hidden(cfg.savePath, dstPath) && FileKind(cfg.savePath, dstPath) == Some(Mp4)
    ensures Stamp(cfg, dstPath) == 1633765085
    ensures Url(RelPath(cfg.savePath, dstPath)) == "live/hw/2021-10-09/15-38-05.mp4"
  {
    var dir, stem, ext := "/live/hw/2021-10-09", "15-38-05", "mp4";
    SamplesPlain();
    SampleJoins();
    SampleUrls();
    KindsOfExtensions();
    HwWindow(rel);
    MediaSegment(cfg.savePath, dir, stem, ext, dstPath, Mp4);
    HwTimestamp(rel);
  }

  // ------------------------------------------------------ a whole query

  /** The record `getRecFileRange` builds for the FLV segment. */
  function HkRecord(data: seq<byte>): RecFileInfo {
    RecFileInfo("hk/2021/09/24/143046.flv", |data|, 1632465046, TailDuration(data))
  }

  /** The first lookup of the query for 2021-09-24 stores the FLV segment. */
  lemma HkLookup(cfg: Config, hk: string, data: seq<byte>)
    requires cfg.zone == Fixed(Utc8) && hk == cfg.savePath + "/hk/2021/09/24/143046.flv"
    ensures NoPanic(cfg.savePath, hk) && Selected(hk)
    ensures RangeLookup(cfg, hk, 1632412800, 1632499200, Opened(data), map[]) ==
      (Ok(HkRecord(data)), map[1632465046 := HkRecord(data)])
  {
    HkSegment(cfg, "/hk/2021/09/24/143046.flv", hk);
    MissBuildsRecord(cfg, hk, 1632412800, 1632499200, Opened(data), map[]);
  }

  /** The MP4 segment of 2021-10-09 lies outside that day's range. */
  lemma HwLookup(cfg: Config, hw: string, data: seq<byte>, memo: Memo)
    requires cfg.zone == Fixed(Utc8) && hw == cfg.savePath + "/live/hw/2021-10-09/15-38-05.mp4"
    ensures NoPanic(cfg.savePath, hw) && Selected(hw)
    ensures RangeLookup(cfg, hw, 1632412800, 1632499200, Opened(data), memo) == (Err(NotFound), memo)
  {
    HwSegment(cfg, "/live/hw/2021-10-09/15-38-05.mp4", hw);
  }

  /** Querying 2021-09-24 over a walk that meets the FLV segment of that day
      and then the MP4 segment of 2021-10-09 reports the FLV segment only,
      with no error, and leaves it in the memo. */
  lemma DayWalk(cfg: Config, hk: string, hw: string, data: seq<byte>, d2: seq<byte>, events: seq<WalkEvent>)
    requires cfg.zone == Fixed(Utc8)
    requires hk == cfg.savePath + "/hk/2021/09/24/143046.flv"
    requires hw == cfg.savePath + "/live/hw/2021-10-09/15-38-05.mp4"
    requires events == [Visit(hk, Opened(data)), Visit(hw, Opened(d2))]
    ensures WalkNoPanic(cfg.savePath, events)
    ensures Walk(cfg, 1632412800, 1632499200, events, [], map[]) ==
      Outcome([HkRecord(data)], None, map[1632465046 := HkRecord(data)])
  {
    HkLookup(cfg, hk, data);
    HwLookup(cfg, hw, d2, map[1632465046 := HkRecord(data)]);
    WalkPair(cfg, 1632412800, 1632499200, events, [], map[]);
    Singles(HkRecord(data), HkRecord(data));
  }
}
