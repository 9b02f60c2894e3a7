/** What `getRecFileRange` and `getRecords` promise, proved about their
    models `RangeLookup` and `Walk`. */
module SegmentProperties {
  import opened Base
  import opened Paths
  import opened Timestamps
  import opened FlvTail
  import opened SegmentIndex

  // ------------------------------------------------- one segment file

  /** A file yields a record exactly when its base name is visible, its
      extension names a media kind, its capture time lies strictly between
      the bounds, and either the memo already holds that time or the file
      opens. */
  lemma RangeLookupOkIff(cfg: Config, dstPath: string, begin: int, end: int, probe: FileProbe, memo: Memo)
    requires NoPanic(cfg.savePath, dstPath)
    ensures RangeLookup(cfg, dstPath, begin, end, probe, memo).0.Ok? <==>
      && !Hidden(cfg.savePath, dstPath)
      && FileKind(cfg.savePath, dstPath).Some?
      && InRange(begin, Stamp(cfg, dstPath), end)
      && (Stamp(cfg, dstPath) in memo || probe.Opened?)
  {
  }

  /** A hidden file, a file of another type and a file outside the range
      are turned away before the memo is consulted or the file opened: the
      error does not depend on the memo or on the file, and nothing is
      stored. The bounds themselves are outside the range. */
  lemma RejectedBeforeLookup(cfg: Config, dstPath: string, begin: int, end: int,
                             probe: FileProbe, memo: Memo, probe': FileProbe, memo': Memo)
    requires NoPanic(cfg.savePath, dstPath)
    requires Hidden(cfg.savePath, dstPath) || FileKind(cfg.savePath, dstPath).None? ||
      Stamp(cfg, dstPath) <= begin || end <= Stamp(cfg, dstPath)
    ensures RangeLookup(cfg, dstPath, begin, end, probe, memo).1 == memo
    ensures RangeLookup(cfg, dstPath, begin, end, probe, memo).0 == RangeLookup(cfg, dstPath, begin, end, probe', memo').0
    ensures RangeLookup(cfg, dstPath, begin, end, probe, memo).0 ==
      if Hidden(cfg.savePath, dstPath) then Err(TempFile(Basename(RelPath(cfg.savePath, dstPath))))
      else if FileKind(cfg.savePath, dstPath).None? then Err(TypeMismatch)
      else Err(NotFound)
  {
  }

  /** On a hit the stored record comes back unchanged, whatever the file
      would now give, and the memo stays as it is. */
  lemma HitIgnoresFile(cfg: Config, dstPath: string, begin: int, end: int, probe: FileProbe, memo: Memo)
    requires NoPanic(cfg.savePath, dstPath)
    requires !Hidden(cfg.savePath, dstPath) && FileKind(cfg.savePath, dstPath).Some?
    requires InRange(begin, Stamp(cfg, dstPath), end) && Stamp(cfg, dstPath) in memo
    ensures RangeLookup(cfg, dstPath, begin, end, probe, memo) == (Ok(memo[Stamp(cfg, dstPath)]), memo)
  {
  }

  /** On a miss with a readable file the new record carries the url, the
      file's size, the capture time and the kind's duration, and is stored
      under that time; an unreadable file stores nothing. */
  lemma MissBuildsRecord(cfg: Config, dstPath: string, begin: int, end: int, probe: FileProbe, memo: Memo)
    requires NoPanic(cfg.savePath, dstPath)
    requires !Hidden(cfg.savePath, dstPath) && FileKind(cfg.savePath, dstPath).Some?
    requires InRange(begin, Stamp(cfg, dstPath), end) && Stamp(cfg, dstPath) !in memo
    ensures probe.Opened? ==>
      var rec := RangeLookup(cfg, dstPath, begin, end, probe, memo).0.value;
      && rec == RecFileInfo(Url(RelPath(cfg.savePath, dstPath)), |probe.data|, Stamp(cfg, dstPath),
                            Duration(cfg, FileKind(cfg.savePath, dstPath).value, probe.data))
      && RangeLookup(cfg, dstPath, begin, end, probe, memo).1 == memo[Stamp(cfg, dstPath) := rec]
    ensures probe == OpenFails ==> RangeLookup(cfg, dstPath, begin, end, probe, memo) == (Err(OpenFailed), memo)
    ensures probe == StatFails ==> RangeLookup(cfg, dstPath, begin, end, probe, memo) == (Err(StatFailed), memo)
  {
    var url, kind, ts := Url(RelPath(cfg.savePath, dstPath)), FileKind(cfg.savePath, dstPath).value, Stamp(cfg, dstPath);
    assert RangeLookup(cfg, dstPath, begin, end, probe, memo) == Memoized(cfg, url, kind, ts, probe, memo);
  }

  /** A url is the path below the save path: put back behind the save path
      (with the `/` that was dropped, if any) it gives the path again, with
      its backslashes turned into `/`; a path without backslashes comes back
      unchanged. */
  lemma UrlRebuildsPath(savePath: string, dstPath: string)
    requires savePath <= dstPath
    ensures var url := Url(RelPath(savePath, dstPath));
      ToSlash(dstPath) == ToSlash(savePath) + url || ToSlash(dstPath) == ToSlash(savePath) + "/" + url
    ensures var url := Url(RelPath(savePath, dstPath));
      '\\' !in dstPath ==> dstPath == savePath + url || dstPath == savePath + "/" + url
  {
    var rest := dstPath[|savePath|..];
    assert dstPath == savePath + rest;
    ToSlashConcat(savePath, rest);
    var r := ToSlash(rest);
    if "/" <= r {
      assert r == "/" + r[1..];
    }
    if '\\' !in dstPath {
      assert forall i :: 0 <= i < |savePath| ==> savePath[i] == dstPath[i];
      ToSlashKeeps(dstPath);
      ToSlashKeeps(savePath);
    }
  }

  /** The memo block stores and returns only records of the time it was
      asked for, under the url it was given. */
  lemma MemoizedKeepsValid(cfg: Config, url: string, kind: Kind, ts: int, probe: FileProbe, memo: Memo)
    requires MemoValid(memo) && SegmentUrl(url)
    ensures var (res, memo') := Memoized(cfg, url, kind, ts, probe, memo);
      && MemoValid(memo')
      && (res.Ok? ==> res.value.timestamp == ts && SegmentUrl(res.value.url))
  {
  }

  /** A record the lookup returns lies strictly inside the query, and its
      url is a visible media name, as long as the memo held only such
      records; the memo keeps holding only such records. */
  lemma RangeLookupKeepsValid(cfg: Config, dstPath: string, begin: int, end: int, probe: FileProbe, memo: Memo)
    requires NoPanic(cfg.savePath, dstPath) && MemoValid(memo)
    ensures var (res, memo') := RangeLookup(cfg, dstPath, begin, end, probe, memo);
      && MemoValid(memo')
      && (res.Ok? ==> InRange(begin, res.value.timestamp, end) && SegmentUrl(res.value.url))
  {
    var r := RangeLookup(cfg, dstPath, begin, end, probe, memo);
    if !Hidden(cfg.savePath, dstPath) && FileKind(cfg.savePath, dstPath).Some? &&
       InRange(begin, Stamp(cfg, dstPath), end) {
      var url, kind, ts := Url(RelPath(cfg.savePath, dstPath)), FileKind(cfg.savePath, dstPath).value, Stamp(cfg, dstPath);
      assert r == Memoized(cfg, url, kind, ts, probe, memo);
      UrlIsSegment(cfg.savePath, dstPath);
      MemoizedKeepsValid(cfg, url, kind, ts, probe, memo);
    } else {
      assert r.0.Err? && r.1 == memo;
    }
  }

  /** Two segments with the same capture time share one memo entry: once
      the first has been read, the second is reported with the first one's
      record (its url, size and duration), whatever the second file holds. */
  lemma SameStampSharesRecord(cfg: Config, first: string, second: string, begin: int, end: int,
                              data: seq<byte>, probe: FileProbe, memo: Memo)
    requires NoPanic(cfg.savePath, first) && NoPanic(cfg.savePath, second)
    requires !Hidden(cfg.savePath, first) && FileKind(cfg.savePath, first).Some?
    requires !Hidden(cfg.savePath, second) && FileKind(cfg.savePath, second).Some?
    requires Stamp(cfg, first) == Stamp(cfg, second) && InRange(begin, Stamp(cfg, first), end)
    requires Stamp(cfg, first) !in memo
    ensures var (r1, m1) := RangeLookup(cfg, first, begin, end, Opened(data), memo);
      RangeLookup(cfg, second, begin, end, probe, m1) == (r1, m1)
  {
    MissBuildsRecord(cfg, first, begin, end, Opened(data), memo);
    var m1 := RangeLookup(cfg, first, begin, end, Opened(data), memo).1;
    HitIgnoresFile(cfg, second, begin, end, probe, m1);
  }

  // ---------------------------------------------------- the whole walk

  lemma ConcatAssoc<T>(a: seq<T>, b: seq<T>, c: seq<T>)
    ensures a + b + c == a + (b + c)
  {
  }

  /** The error `filepath.Walk` hands to the callback first, if any. */
  function FirstFailure(events: seq<WalkEvent>): Option<string> {
    if events == [] then None
    else if events[0].Failure? then Some(events[0].message)
    else FirstFailure(events[1..])
  }

  /** `getRecords` returns the first error of the walk, and no error when
      there was none: a file that fails to open or lies outside the range
      is skipped, never reported. */
  lemma {:induction false} WalkErrorIsFirstFailure(cfg: Config, begin: int, end: int, events: seq<WalkEvent>,
                                                   files: seq<RecFileInfo>, memo: Memo)
    requires WalkNoPanic(cfg.savePath, events)
    ensures Walk(cfg, begin, end, events, files, memo).err == FirstFailure(events)
  {
    if events != [] && events[0].Visit? {
      WalkNoPanicTail(cfg.savePath, events);
      var (res, memo') := if Selected(events[0].path)
        then RangeLookup(cfg, events[0].path, begin, end, events[0].probe, memo)
        else (Err(TypeMismatch), memo);
      WalkErrorIsFirstFailure(cfg, begin, end, events[1..], if res.Ok? then files + [res.value] else files, memo');
    }
  }

  /** Walking `a` and then `b` is walking `a + b`: the walk over `b` goes on
      from the files and memo `a` left, unless `a` ended in an error, which
      stops the walk. */
  lemma {:induction false} WalkAppend(cfg: Config, begin: int, end: int, a: seq<WalkEvent>, b: seq<WalkEvent>,
                                      files: seq<RecFileInfo>, memo: Memo)
    requires WalkNoPanic(cfg.savePath, a) && WalkNoPanic(cfg.savePath, b) && WalkNoPanic(cfg.savePath, a + b)
    ensures var o := Walk(cfg, begin, end, a, files, memo);
      Walk(cfg, begin, end, a + b, files, memo) ==
        if o.err.Some? then o else Walk(cfg, begin, end, b, o.files, o.memo)
  {
    if a == [] {
      assert a + b == b;
    } else {
      assert (a + b)[0] == a[0] && (a + b)[1..] == a[1..] + b;
      WalkNoPanicTail(cfg.savePath, a);
      WalkNoPanicTail(cfg.savePath, a + b);
      if a[0].Visit? {
        var (res, memo') := if Selected(a[0].path)
          then RangeLookup(cfg, a[0].path, begin, end, a[0].probe, memo)
          else (Err(TypeMismatch), memo);
        WalkAppend(cfg, begin, end, a[1..], b, if res.Ok? then files + [res.value] else files, memo');
      }
    }
  }

  /** Everything after the first error of the walk is ignored. */
  lemma WalkStopsAtFailure(cfg: Config, begin: int, end: int, a: seq<WalkEvent>, m: string, rest: seq<WalkEvent>,
                           files: seq<RecFileInfo>, memo: Memo)
    requires FirstFailure(a) == None
    requires WalkNoPanic(cfg.savePath, a) && WalkNoPanic(cfg.savePath, a + [Failure(m)] + rest)
    ensures var o := Walk(cfg, begin, end, a, files, memo);
      Walk(cfg, begin, end, a + [Failure(m)] + rest, files, memo) == Outcome(o.files, Some(m), o.memo)
  {
    var tail := [Failure(m)] + rest;
    assert a + [Failure(m)] + rest == a + tail;
    assert WalkNoPanic(cfg.savePath, tail) by {
      forall i | 0 <= i < |tail| ensures tail[i] == (a + tail)[|a| + i] {}
    }
    WalkAppend(cfg, begin, end, a, tail, files, memo);
    WalkErrorIsFirstFailure(cfg, begin, end, a, files, memo);
  }

  /** Records the query reports: strictly inside the range, under a url
      naming a visible media file. */
  predicate Reported(begin: int, end: int, files: seq<RecFileInfo>) {
    forall i :: 0 <= i < |files| ==> InRange(begin, files[i].timestamp, end) && SegmentUrl(files[i].url)
  }

  lemma ReportedAppend(begin: int, end: int, files: seq<RecFileInfo>, rec: RecFileInfo)
    requires Reported(begin, end, files) && InRange(begin, rec.timestamp, end) && SegmentUrl(rec.url)
    ensures Reported(begin, end, files + [rec])
  {
    assert forall i :: 0 <= i < |files| ==> (files + [rec])[i] == files[i];
  }

  /** Every record `getRecords` returns lies strictly inside the query and
      names a visible media file, whether it was built during this walk or
      found in the memo, as long as the memo held only records of visible
      media files under their own times. */
  lemma {:induction false} WalkFilesSound(cfg: Config, begin: int, end: int, events: seq<WalkEvent>,
                                          files: seq<RecFileInfo>, memo: Memo)
    requires WalkNoPanic(cfg.savePath, events) && MemoValid(memo) && Reported(begin, end, files)
    ensures var o := Walk(cfg, begin, end, events, files, memo);
      Reported(begin, end, o.files) && MemoValid(o.memo)
  {
    if events != [] && events[0].Visit? {
      WalkNoPanicTail(cfg.savePath, events);
      if Selected(events[0].path) {
        var (res, memo') := RangeLookup(cfg, events[0].path, begin, end, events[0].probe, memo);
        RangeLookupKeepsValid(cfg, events[0].path, begin, end, events[0].probe, memo);
        if res.Ok? {
          ReportedAppend(begin, end, files, res.value);
        }
        WalkFilesSound(cfg, begin, end, events[1..], if res.Ok? then files + [res.value] else files, memo');
      } else {
        WalkFilesSound(cfg, begin, end, events[1..], files, memo);
      }
    }
  }

  // ------------------------------------------- what a walk collects

  /** The capture time a visit is looked up under, when it gets past the
      extension, name, type and range tests. */
  function StampOf(cfg: Config, begin: int, end: int, ev: WalkEvent): Option<int> {
    if ev.Visit? && Selected(ev.path) && NoPanic(cfg.savePath, ev.path)
       && !Hidden(cfg.savePath, ev.path) && FileKind(cfg.savePath, ev.path).Some?
       && InRange(begin, Stamp(cfg, ev.path), end)
    then Some(Stamp(cfg, ev.path))
    else None
  }

  /** The record a visit contributes when its time is not yet in the memo. */
  function RecordOf(cfg: Config, begin: int, end: int, ev: WalkEvent): Option<RecFileInfo> {
    if StampOf(cfg, begin, end, ev).Some? && ev.probe.Opened?
    then Some(NewRecord(cfg, ev.path, ev.probe.data))
    else None
  }

  /** The record of a visit as a sequence of zero or one records. */
  function Contribution(cfg: Config, begin: int, end: int, ev: WalkEvent): seq<RecFileInfo> {
    if RecordOf(cfg, begin, end, ev).Some? then [RecordOf(cfg, begin, end, ev).value] else []
  }

  /** The memo after a visit whose time, if new, is stored with its record. */
  function NextMemo(cfg: Config, begin: int, end: int, ev: WalkEvent, memo: Memo): Memo {
    var s := StampOf(cfg, begin, end, ev);
    if s.Some? && s.value !in memo && RecordOf(cfg, begin, end, ev).Some?
    then memo[s.value := RecordOf(cfg, begin, end, ev).value]
    else memo
  }

  /** The records of the visits up to the first error, in walk order. */
  function Expected(cfg: Config, begin: int, end: int, events: seq<WalkEvent>): seq<RecFileInfo> {
    if events == [] || events[0].Failure? then []
    else Contribution(cfg, begin, end, events[0]) + Expected(cfg, begin, end, events[1..])
  }

  /** No two visits are looked up under the same capture time. */
  predicate DistinctStamps(cfg: Config, begin: int, end: int, events: seq<WalkEvent>) {
    forall i, j :: 0 <= i < j < |events| && StampOf(cfg, begin, end, events[i]).Some? ==>
      StampOf(cfg, begin, end, events[i]) != StampOf(cfg, begin, end, events[j])
  }

  /** The memo holds, under the time of the visit, only the record that
      visit would build. */
  predicate Agrees(cfg: Config, begin: int, end: int, ev: WalkEvent, memo: Memo) {
    StampOf(cfg, begin, end, ev).Some? && StampOf(cfg, begin, end, ev).value in memo
    ==> RecordOf(cfg, begin, end, ev) == Some(memo[StampOf(cfg, begin, end, ev).value])
  }

  /** The memo agrees with every visit. */
  predicate Consistent(cfg: Config, begin: int, end: int, events: seq<WalkEvent>, memo: Memo) {
    forall i :: 0 <= i < |events| ==> Agrees(cfg, begin, end, events[i], memo)
  }

  /** The lookup of a selected visit in terms of its time and record: no
      time means an error and no change; a time in the memo gives what the
      memo holds; a new time gives the visit's record, stored under it, or
      an error and no change when the file does not open. */
  lemma LookupByStamp(cfg: Config, begin: int, end: int, ev: WalkEvent, memo: Memo)
    requires ev.Visit? && Selected(ev.path) && NoPanic(cfg.savePath, ev.path)
    ensures var r := RangeLookup(cfg, ev.path, begin, end, ev.probe, memo);
      && (StampOf(cfg, begin, end, ev).None? ==> r.0.Err? && r.1 == memo)
      && (StampOf(cfg, begin, end, ev).Some? && StampOf(cfg, begin, end, ev).value in memo ==>
            r == (Ok(memo[StampOf(cfg, begin, end, ev).value]), memo))
      && (StampOf(cfg, begin, end, ev).Some? && StampOf(cfg, begin, end, ev).value !in memo ==>
            if RecordOf(cfg, begin, end, ev).Some?
            then r == (Ok(RecordOf(cfg, begin, end, ev).value),
                       memo[StampOf(cfg, begin, end, ev).value := RecordOf(cfg, begin, end, ev).value])
            else r.0.Err? && r.1 == memo)
  {
  }

  /** A time that no visit is looked up under and that the memo lacks is
      still missing from the memo after the walk. */
  lemma {:induction false} WalkKeepsAbsent(cfg: Config, begin: int, end: int, events: seq<WalkEvent>,
                                           files: seq<RecFileInfo>, memo: Memo, t: int)
    requires WalkNoPanic(cfg.savePath, events) && t !in memo
    requires forall i :: 0 <= i < |events| ==> StampOf(cfg, begin, end, events[i]) != Some(t)
    ensures t !in Walk(cfg, begin, end, events, files, memo).memo
  {
    if events != [] && events[0].Visit? {
      WalkNoPanicTail(cfg.savePath, events);
      assert forall i :: 0 <= i < |events[1..]| ==> events[1..][i] == events[i + 1];
      if Selected(events[0].path) {
        var (res, memo') := RangeLookup(cfg, events[0].path, begin, end, events[0].probe, memo);
        LookupByStamp(cfg, begin, end, events[0], memo);
        WalkKeepsAbsent(cfg, begin, end, events[1..], if res.Ok? then files + [res.value] else files, memo', t);
      } else {
        WalkKeepsAbsent(cfg, begin, end, events[1..], files, memo, t);
      }
    }
  }

  lemma DistinctTail(cfg: Config, begin: int, end: int, events: seq<WalkEvent>)
    requires events != [] && DistinctStamps(cfg, begin, end, events)
    ensures DistinctStamps(cfg, begin, end, events[1..])
    ensures StampOf(cfg, begin, end, events[0]).Some? ==>
      forall i :: 0 <= i < |events[1..]| ==> StampOf(cfg, begin, end, events[1..][i]) != StampOf(cfg, begin, end, events[0])
  {
    assert forall i :: 0 <= i < |events[1..]| ==> events[1..][i] == events[i + 1];
  }

  /** After the first visit, the memo it leaves is consistent with the
      visits that follow: either it is unchanged, or it gained the first
      visit's own record under a time no later visit uses. */
  lemma ConsistentTail(cfg: Config, begin: int, end: int, events: seq<WalkEvent>, memo: Memo, memo': Memo)
    requires events != [] && DistinctStamps(cfg, begin, end, events) && Consistent(cfg, begin, end, events, memo)
    requires memo' == memo ||
      (&& StampOf(cfg, begin, end, events[0]).Some? && RecordOf(cfg, begin, end, events[0]).Some?
       && memo' == memo[StampOf(cfg, begin, end, events[0]).value := RecordOf(cfg, begin, end, events[0]).value])
    ensures Consistent(cfg, begin, end, events[1..], memo')
  {
    DistinctTail(cfg, begin, end, events);
    forall i | 0 <= i < |events[1..]|
      ensures Agrees(cfg, begin, end, events[1..][i], memo')
    {
      assert events[1..][i] == events[i + 1];
      assert Agrees(cfg, begin, end, events[i + 1], memo);
    }
  }

  /** The lookup of a selected visit, when the memo holds under its time
      only its own record, adds the visit's record, if any, and leaves
      `NextMemo`. */
  lemma LookupStep(cfg: Config, begin: int, end: int, ev: WalkEvent, memo: Memo)
    requires ev.Visit? && Selected(ev.path) && NoPanic(cfg.savePath, ev.path)
    requires Agrees(cfg, begin, end, ev, memo)
    ensures var (res, memo') := RangeLookup(cfg, ev.path, begin, end, ev.probe, memo);
      && memo' == NextMemo(cfg, begin, end, ev, memo)
      && (if res.Ok? then [res.value] else []) == Contribution(cfg, begin, end, ev)
  {
    LookupByStamp(cfg, begin, end, ev, memo);
  }

  /** One visit of the walk, when the memo holds under its time only its
      own record: the visit adds its record, if any, and `NextMemo`. */
  lemma WalkFirstVisit(cfg: Config, begin: int, end: int, events: seq<WalkEvent>, files: seq<RecFileInfo>, memo: Memo)
    requires events != [] && events[0].Visit? && WalkNoPanic(cfg.savePath, events)
    requires Consistent(cfg, begin, end, events, memo)
    ensures WalkNoPanic(cfg.savePath, events[1..])
    ensures Walk(cfg, begin, end, events, files, memo) ==
      Walk(cfg, begin, end, events[1..], files + Contribution(cfg, begin, end, events[0]),
           NextMemo(cfg, begin, end, events[0], memo))
  {
    WalkNoPanicTail(cfg.savePath, events);
    if Selected(events[0].path) {
      LookupStep(cfg, begin, end, events[0], memo);
      var (res, m) := RangeLookup(cfg, events[0].path, begin, end, events[0].probe, memo);
      assert (if res.Ok? then files + [res.value] else files) == files + Contribution(cfg, begin, end, events[0]);
    } else {
      assert files + [] == files;
    }
  }

  /** Consistency with the visits after the first carries over to all
      visits, when the first visit's time is in the final memo only with its
      own record. */
  lemma ConsistentHead(cfg: Config, begin: int, end: int, events: seq<WalkEvent>, memo: Memo)
    requires events != [] && Consistent(cfg, begin, end, events[1..], memo)
    requires Agrees(cfg, begin, end, events[0], memo)
    ensures Consistent(cfg, begin, end, events, memo)
  {
    forall i | 0 <= i < |events|
      ensures Agrees(cfg, begin, end, events[i], memo)
    {
      if i > 0 {
        assert events[1..][i - 1] == events[i];
      }
    }
  }

  /** With distinct times and a memo consistent with the visits, the walk
      collects exactly the records of the visits up to the first error, in
      walk order. */
  lemma {:induction false} WalkCollects(cfg: Config, begin: int, end: int, events: seq<WalkEvent>,
                                        files: seq<RecFileInfo>, memo: Memo)
    requires WalkNoPanic(cfg.savePath, events) && DistinctStamps(cfg, begin, end, events)
    requires Consistent(cfg, begin, end, events, memo)
    ensures Walk(cfg, begin, end, events, files, memo).files == files + Expected(cfg, begin, end, events)
  {
    if events == [] || events[0].Failure? {
      assert files + [] == files;
    } else {
      var files' := files + Contribution(cfg, begin, end, events[0]);
      var memo' := NextMemo(cfg, begin, end, events[0], memo);
      DistinctTail(cfg, begin, end, events);
      ConsistentTail(cfg, begin, end, events, memo, memo');
      WalkNoPanicTail(cfg.savePath, events);
      WalkCollects(cfg, begin, end, events[1..], files', memo');
      CollectStep(cfg, begin, end, events, files, memo);
    }
  }

  /** The records of a walk that starts with a visit. */
  lemma ExpectedStep(cfg: Config, begin: int, end: int, events: seq<WalkEvent>, files: seq<RecFileInfo>)
    requires events != [] && events[0].Visit?
    ensures files + Contribution(cfg, begin, end, events[0]) + Expected(cfg, begin, end, events[1..]) ==
      files + Expected(cfg, begin, end, events)
  {
    var c, e := Contribution(cfg, begin, end, events[0]), Expected(cfg, begin, end, events[1..]);
    assert Expected(cfg, begin, end, events) == c + e;
    ConcatAssoc(files, c, e);
  }

  /** The inductive step of `WalkCollects`. */
  lemma CollectStep(cfg: Config, begin: int, end: int, events: seq<WalkEvent>, files: seq<RecFileInfo>, memo: Memo)
    requires events != [] && events[0].Visit? && WalkNoPanic(cfg.savePath, events)
    requires Consistent(cfg, begin, end, events, memo)
    requires WalkNoPanic(cfg.savePath, events[1..])
    requires var files' := files + Contribution(cfg, begin, end, events[0]);
      Walk(cfg, begin, end, events[1..], files', NextMemo(cfg, begin, end, events[0], memo)).files ==
        files' + Expected(cfg, begin, end, events[1..])
    ensures Walk(cfg, begin, end, events, files, memo).files == files + Expected(cfg, begin, end, events)
  {
    WalkFirstVisit(cfg, begin, end, events, files, memo);
    ExpectedStep(cfg, begin, end, events, files);
  }

  /** With distinct times, a memo consistent with the visits stays
      consistent with them through the walk. */
  lemma {:induction false} WalkKeepsConsistent(cfg: Config, begin: int, end: int, events: seq<WalkEvent>,
                                               files: seq<RecFileInfo>, memo: Memo)
    requires WalkNoPanic(cfg.savePath, events) && DistinctStamps(cfg, begin, end, events)
    requires Consistent(cfg, begin, end, events, memo)
    ensures Consistent(cfg, begin, end, events, Walk(cfg, begin, end, events, files, memo).memo)
  {
    if events != [] && events[0].Visit? {
      var s := StampOf(cfg, begin, end, events[0]);
      var files' := files + Contribution(cfg, begin, end, events[0]);
      var memo' := NextMemo(cfg, begin, end, events[0], memo);
      WalkFirstVisit(cfg, begin, end, events, files, memo);
      DistinctTail(cfg, begin, end, events);
      ConsistentTail(cfg, begin, end, events, memo, memo');
      WalkKeepsConsistent(cfg, begin, end, events[1..], files', memo');
      if s.Some? && s.value !in memo' {
        WalkKeepsAbsent(cfg, begin, end, events[1..], files', memo', s.value);
      }
      ConsistentHead(cfg, begin, end, events, Walk(cfg, begin, end, events[1..], files', memo').memo);
    }
  }

  /** From an empty memo, and with no two visits sharing a capture time,
      `getRecords` returns exactly the in-range, visible media segments that
      open, up to the first error, in walk order, each with its own url,
      size, capture time and duration. */
  lemma FreshWalkIsFilter(cfg: Config, begin: int, end: int, events: seq<WalkEvent>)
    requires WalkNoPanic(cfg.savePath, events) && DistinctStamps(cfg, begin, end, events)
    ensures Walk(cfg, begin, end, events, [], map[]).files == Expected(cfg, begin, end, events)
  {
    WalkCollects(cfg, begin, end, events, [], map[]);
    assert [] + Expected(cfg, begin, end, events) == Expected(cfg, begin, end, events);
  }

  /** Running the same query over the same walk again, with the memo the
      first run left, reports the same segments and the same error: the
      memo changes how a record is obtained, not which records are
      reported. */
  lemma RerunGivesSameFiles(cfg: Config, begin: int, end: int, events: seq<WalkEvent>, memo: Memo)
    requires WalkNoPanic(cfg.savePath, events) && DistinctStamps(cfg, begin, end, events)
    requires Consistent(cfg, begin, end, events, memo)
    ensures var first := Walk(cfg, begin, end, events, [], memo);
      var second := Walk(cfg, begin, end, events, [], first.memo);
      second.files == first.files && second.err == first.err
  {
    var first := Walk(cfg, begin, end, events, [], memo);
    WalkCollects(cfg, begin, end, events, [], memo);
    WalkKeepsConsistent(cfg, begin, end, events, [], memo);
    WalkCollects(cfg, begin, end, events, [], first.memo);
    WalkErrorIsFirstFailure(cfg, begin, end, events, [], memo);
    WalkErrorIsFirstFailure(cfg, begin, end, events, [], first.memo);
  }

  /** Up to the first error, every visit that would be read (visible, of
      a media kind, inside the range, and opening) finds its time in the
      memo: its lookup is a hit, and no file is opened to build a record. */
  predicate Covered(cfg: Config, begin: int, end: int, events: seq<WalkEvent>, memo: Memo) {
    events == [] || events[0].Failure? ||
    ((RecordOf(cfg, begin, end, events[0]).Some? ==> StampOf(cfg, begin, end, events[0]).value in memo)
     && Covered(cfg, begin, end, events[1..], memo))
  }

  /** After a walk, the memo covers every visit of that walk. */
  lemma {:induction false} WalkCovers(cfg: Config, begin: int, end: int, events: seq<WalkEvent>,
                                      files: seq<RecFileInfo>, memo: Memo)
    requires WalkNoPanic(cfg.savePath, events)
    ensures Covered(cfg, begin, end, events, Walk(cfg, begin, end, events, files, memo).memo)
  {
    if events != [] && events[0].Visit? {
      WalkNoPanicTail(cfg.savePath, events);
      if Selected(events[0].path) {
        var (res, memo') := RangeLookup(cfg, events[0].path, begin, end, events[0].probe, memo);
        LookupByStamp(cfg, begin, end, events[0], memo);
        WalkCovers(cfg, begin, end, events[1..], if res.Ok? then files + [res.value] else files, memo');
      } else {
        WalkCovers(cfg, begin, end, events[1..], files, memo);
      }
    }
  }

  /** A walk over a memo that covers it stores nothing new. */
  lemma {:induction false} CoveredWalkKeepsMemo(cfg: Config, begin: int, end: int, events: seq<WalkEvent>,
                                                files: seq<RecFileInfo>, memo: Memo)
    requires WalkNoPanic(cfg.savePath, events) && Covered(cfg, begin, end, events, memo)
    ensures Walk(cfg, begin, end, events, files, memo).memo == memo
  {
    if events != [] && events[0].Visit? {
      WalkNoPanicTail(cfg.savePath, events);
      if Selected(events[0].path) {
        var (res, memo') := RangeLookup(cfg, events[0].path, begin, end, events[0].probe, memo);
        LookupByStamp(cfg, begin, end, events[0], memo);
        assert memo' == memo;
        CoveredWalkKeepsMemo(cfg, begin, end, events[1..], if res.Ok? then files + [res.value] else files, memo);
      } else {
        CoveredWalkKeepsMemo(cfg, begin, end, events[1..], files, memo);
      }
    }
  }

  /** Running the same query again over the memo the first run left opens
      no file to build a record: every visit that would be read is a hit,
      and the memo is left as it was. This holds whatever the capture
      times, collisions included. */
  lemma RerunReadsNothing(cfg: Config, begin: int, end: int, events: seq<WalkEvent>, memo: Memo)
    requires WalkNoPanic(cfg.savePath, events)
    ensures var first := Walk(cfg, begin, end, events, [], memo);
      && Covered(cfg, begin, end, events, first.memo)
      && Walk(cfg, begin, end, events, [], first.memo).memo == first.memo
  {
    var first := Walk(cfg, begin, end, events, [], memo);
    WalkCovers(cfg, begin, end, events, [], memo);
    CoveredWalkKeepsMemo(cfg, begin, end, events, [], first.memo);
  }

  // ----------------------------------------- walks of two selected visits


  lemma PairNoPanic(savePath: string, events: seq<WalkEvent>)
    requires |events| == 2 && events[0].Visit? && events[1].Visit?
    requires NoPanic(savePath, events[0].path) && NoPanic(savePath, events[1].path)
    ensures WalkNoPanic(savePath, events)
  {
    forall i | 0 <= i < |events| && events[i].Visit? && Selected(events[i].path)
      ensures NoPanic(savePath, events[i].path)
    {
      assert i == 0 || i == 1;
    }
  }

  /** What a lookup adds to the files: its record, or nothing. */
  function Keep(r: Result<RecFileInfo, RangeError>): (kept: seq<RecFileInfo>)
    ensures r.Ok? ==> kept == [r.value]
    ensures r.Err? ==> kept == []
  {
    if r.Ok? then [r.value] else []
  }

  /** A walk of one selected visit ends with what its lookup gives. */
  lemma WalkLast(cfg: Config, begin: int, end: int, events: seq<WalkEvent>, files: seq<RecFileInfo>, memo: Memo)
    requires WalkNoPanic(cfg.savePath, events) && |events| == 1 && events[0].Visit? && Selected(events[0].path)
    ensures var r := RangeLookup(cfg, events[0].path, begin, end, events[0].probe, memo);
      Walk(cfg, begin, end, events, files, memo) == Outcome(files + Keep(r.0), None, r.1)
  {
    WalkVisit(cfg, begin, end, events, files, memo);
    assert events[1..] == [];
    assert files + [] == files;
  }

  /** A walk of two selected visits: the second is looked up in the memo
      the first left, and the records of both, if any, are reported in
      walk order. */
  lemma WalkPair(cfg: Config, begin: int, end: int, events: seq<WalkEvent>, files: seq<RecFileInfo>, memo: Memo)
    requires |events| == 2 && events[0].Visit? && events[1].Visit?
    requires Selected(events[0].path) && NoPanic(cfg.savePath, events[0].path)
    requires Selected(events[1].path) && NoPanic(cfg.savePath, events[1].path)
    ensures WalkNoPanic(cfg.savePath, events)
    ensures var r1 := RangeLookup(cfg, events[0].path, begin, end, events[0].probe, memo);
      var r2 := RangeLookup(cfg, events[1].path, begin, end, events[1].probe, r1.1);
      Walk(cfg, begin, end, events, files, memo) == Outcome(files + Keep(r1.0) + Keep(r2.0), None, r2.1)
  {
    PairNoPanic(cfg.savePath, events);
    var r1 := RangeLookup(cfg, events[0].path, begin, end, events[0].probe, memo);
    WalkVisit(cfg, begin, end, events, files, memo);
    var rest := events[1..];
    assert rest[0] == events[1] && |rest| == 1;
    assert (if r1.0.Ok? then files + [r1.0.value] else files) == files + Keep(r1.0);
    WalkLast(cfg, begin, end, rest, files + Keep(r1.0), r1.1);
  }

  lemma Singles<T>(x: T, y: T)
    ensures [] + [x] + [y] == [x, y] && [] + [x] + [] == [x] && [] + [] + [y] == [y]
  {
  }

  /** The records expected of two visits. */
  lemma ExpectedPair(cfg: Config, begin: int, end: int, events: seq<WalkEvent>)
    requires |events| == 2 && events[0].Visit? && events[1].Visit?
    ensures Expected(cfg, begin, end, events) ==
      Contribution(cfg, begin, end, events[0]) + Contribution(cfg, begin, end, events[1])
  {
    var rest := events[1..];
    assert rest[0] == events[1] && rest[1..] == [];
    assert Expected(cfg, begin, end, rest) == Contribution(cfg, begin, end, events[1]) + [];
  }

  // ------------------------------------------- capture-time collisions

  /** Two segments the walk selects, both visible media files inside the
      query, with one capture time: two streams whose recordings started in
      the same second. */
  predicate Collide(cfg: Config, begin: int, end: int, a: string, b: string) {
    && Selected(a) && NoPanic(cfg.savePath, a) && !Hidden(cfg.savePath, a) && FileKind(cfg.savePath, a).Some?
    && Selected(b) && NoPanic(cfg.savePath, b) && !Hidden(cfg.savePath, b) && FileKind(cfg.savePath, b).Some?
    && InRange(begin, Stamp(cfg, a), end) && Stamp(cfg, a) == Stamp(cfg, b)
  }

  /** As written, a fresh walk over two colliding segments reports the
      first one's record twice: the second segment's url, size and duration
      are never reported, where the filter `Expected` reports each segment
      with its own record. */
  lemma CollisionRepeatsRecord(cfg: Config, begin: int, end: int, a: string, b: string,
                               da: seq<byte>, db: seq<byte>, events: seq<WalkEvent>)
    requires Collide(cfg, begin, end, a, b)
    requires events == [Visit(a, Opened(da)), Visit(b, Opened(db))]
    ensures WalkNoPanic(cfg.savePath, events)
    ensures Walk(cfg, begin, end, events, [], map[]).files == [NewRecord(cfg, a, da), NewRecord(cfg, a, da)]
    ensures Expected(cfg, begin, end, events) == [NewRecord(cfg, a, da), NewRecord(cfg, b, db)]
    ensures NewRecord(cfg, a, da) != NewRecord(cfg, b, db) ==>
      Walk(cfg, begin, end, events, [], map[]).files != Expected(cfg, begin, end, events)
  {
    CollisionWalk(cfg, begin, end, a, b, da, db, events);
    CollisionExpected(cfg, begin, end, a, b, da, db, events);
  }

  lemma CollisionExpected(cfg: Config, begin: int, end: int, a: string, b: string,
                          da: seq<byte>, db: seq<byte>, events: seq<WalkEvent>)
    requires Collide(cfg, begin, end, a, b)
    requires events == [Visit(a, Opened(da)), Visit(b, Opened(db))]
    ensures Expected(cfg, begin, end, events) == [NewRecord(cfg, a, da), NewRecord(cfg, b, db)]
  {
    ExpectedPair(cfg, begin, end, events);
    OpenedContribution(cfg, begin, end, a, da);
    OpenedContribution(cfg, begin, end, b, db);
  }

  lemma CollisionWalk(cfg: Config, begin: int, end: int, a: string, b: string,
                      da: seq<byte>, db: seq<byte>, events: seq<WalkEvent>)
    requires Collide(cfg, begin, end, a, b)
    requires events == [Visit(a, Opened(da)), Visit(b, Opened(db))]
    ensures WalkNoPanic(cfg.savePath, events)
    ensures Walk(cfg, begin, end, events, [], map[]).files == [NewRecord(cfg, a, da), NewRecord(cfg, a, da)]
  {
    var ra := NewRecord(cfg, a, da);
    var m1 := map[Stamp(cfg, a) := ra];
    MissBuildsRecord(cfg, a, begin, end, Opened(da), map[]);
    HitIgnoresFile(cfg, b, begin, end, Opened(db), m1);
    WalkPair(cfg, begin, end, events, [], map[]);
    Singles(ra, ra);
  }

  /** A visible media segment inside the query that opens contributes
      its own record. */
  lemma OpenedContribution(cfg: Config, begin: int, end: int, path: string, data: seq<byte>)
    requires Selected(path) && NoPanic(cfg.savePath, path)
    requires !Hidden(cfg.savePath, path) && FileKind(cfg.savePath, path).Some?
    requires InRange(begin, Stamp(cfg, path), end)
    ensures Contribution(cfg, begin, end, Visit(path, Opened(data))) == [NewRecord(cfg, path, data)]
  {
    assert StampOf(cfg, begin, end, Visit(path, Opened(data))) == Some(Stamp(cfg, path));
  }

  /** As written, a segment that fails to open leaves its capture time to a
      colliding segment; running the same query again over the memo the
      first run left then reports the second segment's record twice, where
      the first run reported it once. */
  lemma RerunAfterCollisionGrows(cfg: Config, begin: int, end: int, a: string, b: string,
                                 db: seq<byte>, events: seq<WalkEvent>)
    requires Collide(cfg, begin, end, a, b)
    requires events == [Visit(a, OpenFails), Visit(b, Opened(db))]
    ensures WalkNoPanic(cfg.savePath, events)
    ensures var first := Walk(cfg, begin, end, events, [], map[]);
      && first.files == [NewRecord(cfg, b, db)]
      && Walk(cfg, begin, end, events, [], first.memo).files == [NewRecord(cfg, b, db), NewRecord(cfg, b, db)]
  {
    var rb := NewRecord(cfg, b, db);
    var m1 := map[Stamp(cfg, b) := rb];
    // the first run: `a` does not open, `b` is stored
    MissBuildsRecord(cfg, a, begin, end, OpenFails, map[]);
    MissBuildsRecord(cfg, b, begin, end, Opened(db), map[]);
    WalkPair(cfg, begin, end, events, [], map[]);
    // the second run: both hit the entry of `b`
    HitIgnoresFile(cfg, a, begin, end, OpenFails, m1);
    HitIgnoresFile(cfg, b, begin, end, Opened(db), m1);
    WalkPair(cfg, begin, end, events, [], m1);
    Singles(rb, rb);
  }
}
