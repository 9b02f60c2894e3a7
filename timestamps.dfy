/** Capture time of a segment, derived from its path (main.go:507-532).

    `getTimestamp` cuts a fixed window out of the path, a few bytes before the
    end, and parses it with Go's `time.ParseInLocation` against a fixed layout;
    any failure gives the Unix epoch. Go's parser is modelled for the layout
    elements these layouts use, as an interpreter over the tokenised layout;
    the time zone is a fixed offset from UTC, in seconds. */
module Timestamps {
  import opened Base

  /** The broken-down fields of a Go `time.Time` at second precision. */
  datatype DateTime = DateTime(year: int, month: int, day: int, hour: int, minute: int, second: int)

  /** The elements of a Go layout string that the three layouts below use:
      "2006" (four-digit year), "01" (two-digit month), "02" (two-digit day),
      "15" (hour: one or two digits when parsing, two when formatting),
      "04" (two-digit minute), "05" (two-digit second), a literal byte, and
      a space (which in the input stands for one or more spaces). */
  datatype Token = LongYear | ZeroMonth | ZeroDay | Hour | ZeroMinute | ZeroSecond | Lit(c: char) | Space

  type Layout = seq<Token>

  /** "2006/01/02/150405", the layout of an FLV segment path (main.go:513). */
  const FlvLayout: Layout := [LongYear, Lit('/'), ZeroMonth, Lit('/'), ZeroDay, Lit('/'), Hour, ZeroMinute, ZeroSecond]

  /** "2006-01-02/15-04-05", the layout of an MP4 segment path (main.go:518). */
  const Mp4Layout: Layout :=
    [LongYear, Lit('-'), ZeroMonth, Lit('-'), ZeroDay, Lit('/'), Hour, Lit('-'), ZeroMinute, Lit('-'), ZeroSecond]

  /** "2006-01-02 15:04:05", the layout of a query bound (main.go:508). */
  const QueryLayout: Layout :=
    [LongYear, Lit('-'), ZeroMonth, Lit('-'), ZeroDay, Space, Hour, Lit(':'), ZeroMinute, Lit(':'), ZeroSecond]

  /** The fields Go's parser starts from before it reads the input. */
  const ZeroFields := DateTime(0, 1, 1, 0, 0, 0)

  // ---------------------------------------------------------------- digits

  predicate IsDigit(c: char) {
    '0' <= c <= '9'
  }

  predicate AllDigits(s: string) {
    forall i :: 0 <= i < |s| ==> IsDigit(s[i])
  }

  function DigitValue(c: char): int
    requires IsDigit(c)
  {
    c as int - '0' as int
  }

  function DigitChar(d: int): char
    requires 0 <= d < 10
  {
    ('0' as int + d) as char
  }

  function Pow10(n: nat): nat {
    if n == 0 then 1 else 10 * Pow10(n - 1)
  }

  /** The number a string of decimal digits denotes. */
  function Value(s: string): nat
    requires AllDigits(s)
  {
    if s == [] then 0 else Value(s[..|s| - 1]) * 10 + DigitValue(s[|s| - 1])
  }

  /** The last `w` decimal digits of `n`, zero-padded (Go's `appendInt(b, n, w)`
      for `n < 10^w`). */
  function Pad(n: nat, w: nat): (s: string)
    ensures |s| == w && AllDigits(s)
  {
    if w == 0 then [] else Pad(n / 10, w - 1) + [DigitChar(n % 10)]
  }

  lemma {:induction false} ValueOfPad(n: nat, w: nat)
    requires n < Pow10(w)
    ensures Value(Pad(n, w)) == n
  {
    if w > 0 {
      ValueOfPad(n / 10, w - 1);
      var p := Pad(n, w);
      assert p[..|p| - 1] == Pad(n / 10, w - 1);
    }
  }

  lemma {:induction false} ValueBound(s: string)
    requires AllDigits(s)
    ensures Value(s) < Pow10(|s|)
  {
    if s != [] {
      ValueBound(s[..|s| - 1]);
    }
  }

  /** Appending a decimal digit `d` to `x` and taking it off again. */
  lemma ShiftDecimal(x: int, d: int)
    requires 0 <= d < 10
    ensures (x * 10 + d) / 10 == x && (x * 10 + d) % 10 == d
  {
  }

  lemma {:induction false} PadOfValue(s: string)
    requires AllDigits(s)
    ensures Pad(Value(s), |s|) == s
  {
    if s != [] {
      var t := s[..|s| - 1];
      var d := DigitValue(s[|s| - 1]);
      PadOfValue(t);
      ShiftDecimal(Value(t), d);
      assert DigitChar(d) == s[|s| - 1];
      assert s == t + [s[|s| - 1]];
    }
  }

  // ------------------------------------------------------- Go's time.Parse

  /** Go's `getnum(s, fixed)`: one or two leading digits; with `fixed`,
      exactly two. Returns the number and the rest of the input. */
  function GetNum(s: string, fixed: bool): (r: Option<(int, string)>)
    ensures r.Some? ==> 0 <= r.value.0 < 100
    ensures r.Some? ==> |r.value.1| < |s| && r.value.1 == s[|s| - |r.value.1|..]
    ensures r.Some? && |r.value.1| < |s| - 1 ==> |r.value.1| == |s| - 2
    ensures r.Some? && fixed ==> |r.value.1| == |s| - 2
  {
    if |s| == 0 || !IsDigit(s[0]) then None
    else if |s| < 2 || !IsDigit(s[1]) then
      if fixed then None else Some((DigitValue(s[0]), s[1..]))
    else Some((DigitValue(s[0]) * 10 + DigitValue(s[1]), s[2..]))
  }

  /** Go's `cutspace`: drops leading spaces. */
  function CutSpace(s: string): (r: string)
    ensures |r| <= |s| && r == s[|s| - |r|..]
    ensures r == [] || r[0] != ' '
  {
    if s != [] && s[0] == ' ' then CutSpace(s[1..]) else s
  }

  /** Field ranges Go's parser enforces while it reads (the day is checked
      against its month only at the end). */
  predicate FieldRanges(t: DateTime) {
    && 0 <= t.year < 10000
    && 1 <= t.month <= 12
    && 0 <= t.day < 100
    && 0 <= t.hour < 24
    && 0 <= t.minute < 60
    && 0 <= t.second < 60
  }

  predicate IsLeap(year: int) {
    year % 4 == 0 && (year % 100 != 0 || year % 400 == 0)
  }

  /** Go's `daysIn(month, year)`. */
  function DaysIn(month: int, year: int): int
    requires 1 <= month <= 12
  {
    if month == 2 then (if IsLeap(year) then 29 else 28)
    else if month == 4 || month == 6 || month == 9 || month == 11 then 30
    else 31
  }

  /** A date and time Go's parser can produce: four-digit year, a real day
      of its month, and a clock time. */
  predicate Valid(t: DateTime) {
    FieldRanges(t) && 1 <= t.day <= DaysIn(t.month, t.year)
  }

  function TokenWidth(t: Token): nat {
    match t
    case LongYear => 4
    case Lit(_) => 1
    case Space => 1
    case _ => 2
  }

  /** Length of the text the layout formats to. */
  function Width(layout: Layout): nat {
    if layout == [] then 0 else TokenWidth(layout[0]) + Width(layout[1..])
  }

  predicate IsField(t: Token) {
    !t.Lit? && !t.Space?
  }

  /** The value of the field that element `t` reads and writes. */
  function FieldOf(t: Token, dt: DateTime): int
    requires IsField(t)
  {
    match t
    case LongYear => dt.year
    case ZeroMonth => dt.month
    case ZeroDay => dt.day
    case Hour => dt.hour
    case ZeroMinute => dt.minute
    case ZeroSecond => dt.second
  }

  /** `acc` with the field of element `t` set to `n`. */
  function Store(t: Token, n: int, acc: DateTime): DateTime
    requires IsField(t)
  {
    match t
    case LongYear => acc.(year := n)
    case ZeroMonth => acc.(month := n)
    case ZeroDay => acc.(day := n)
    case Hour => acc.(hour := n)
    case ZeroMinute => acc.(minute := n)
    case ZeroSecond => acc.(second := n)
  }

  /** The values Go's parser accepts for the field of element `t`. */
  predicate Fits(t: Token, n: int)
    requires IsField(t)
  {
    match t
    case LongYear => 0 <= n < 10000
    case ZeroMonth => 1 <= n <= 12
    case ZeroDay => 0 <= n < 100
    case Hour => 0 <= n < 24
    case _ => 0 <= n < 60
  }

  /** One field of Go's parse loop: the number read for element `t` and the
      rest of the input, or None on a syntax or range error. */
  function ReadField(t: Token, value: string): (r: Option<(int, string)>)
    requires IsField(t)
    ensures r.Some? ==> Fits(t, r.value.0)
    ensures r.Some? ==> |r.value.1| < |value| && r.value.1 == value[|value| - |r.value.1|..]
    ensures r.Some? && t != Hour ==> |r.value.1| == |value| - TokenWidth(t)
    ensures r.Some? && t == Hour ==> |r.value.1| == |value| - 2 || |r.value.1| == |value| - 1
  {
    match t
    case LongYear =>
      if |value| >= 4 && AllDigits(value[..4]) then
        ValueBound(value[..4]);
        Some((Value(value[..4]), value[4..]))
      else None
    case ZeroMonth =>
      var r := GetNum(value, true);
      if r.Some? && 1 <= r.value.0 <= 12 then r else None
    case ZeroDay =>
      GetNum(value, true)
    case Hour =>
      var r := GetNum(value, false);
      if r.Some? && r.value.0 < 24 then r else None
    case ZeroMinute | ZeroSecond =>
      var r := GetNum(value, true);
      if r.Some? && r.value.0 < 60 then r else None
  }

  /** The fields of `acc` that `layout` does not mention are those of `r`. */
  predicate Untouched(layout: Layout, acc: DateTime, r: DateTime) {
    && (LongYear !in layout ==> r.year == acc.year)
    && (ZeroMonth !in layout ==> r.month == acc.month)
    && (ZeroDay !in layout ==> r.day == acc.day)
    && (Hour !in layout ==> r.hour == acc.hour)
    && (ZeroMinute !in layout ==> r.minute == acc.minute)
    && (ZeroSecond !in layout ==> r.second == acc.second)
  }

  /** The main loop of Go's `time.parse`: reads `value` element by element of
      `layout`, storing the fields it reads into `acc`. A literal must match
      exactly; a space matches one or more spaces; all of the input must be
      consumed. */
  function ParseFields(layout: Layout, value: string, acc: DateTime): (r: Option<DateTime>)
    decreases |layout|
    ensures r.Some? && FieldRanges(acc) ==> FieldRanges(r.value)
    ensures r.Some? && Space !in layout ==> |value| <= Width(layout)
  {
    if layout == [] then
      if value == [] then Some(acc) else None
    else
      var rest := layout[1..];
      match layout[0]
      case Lit(c) =>
        if |value| > 0 && value[0] == c then ParseFields(rest, value[1..], acc) else None
      case Space =>
        if |value| > 0 && value[0] != ' ' then None else ParseFields(rest, CutSpace(value), acc)
      case _ =>
        match ReadField(layout[0], value)
        case None => None
        case Some((n, tail)) => ParseFields(rest, tail, Store(layout[0], n, acc))
  }

  /** The parse loop writes only the fields its layout mentions. */
  lemma {:induction false} ParseKeepsUnmentioned(layout: Layout, value: string, acc: DateTime)
    requires ParseFields(layout, value, acc).Some?
    ensures Untouched(layout, acc, ParseFields(layout, value, acc).value)
  {
    if layout != [] {
      var rest := layout[1..];
      assert forall t :: t in layout <==> t == layout[0] || t in rest;
      match layout[0]
      case Lit(c) =>
        ParseKeepsUnmentioned(rest, value[1..], acc);
      case Space =>
        ParseKeepsUnmentioned(rest, CutSpace(value), acc);
      case _ =>
        var (n, tail) := ReadField(layout[0], value).value;
        ParseKeepsUnmentioned(rest, tail, Store(layout[0], n, acc));
    }
  }

  lemma UntouchedField(layout: Layout, acc: DateTime, r: DateTime, t: Token)
    requires IsField(t) && t !in layout && Untouched(layout, acc, r)
    ensures FieldOf(t, r) == FieldOf(t, acc)
  {
  }

  /** Go's `time.Parse` for these layouts: the main loop, then the check that
      the day exists in its month. */
  function Parse(layout: Layout, value: string): (r: Option<DateTime>)
    ensures r.Some? ==> Valid(r.value)
  {
    match ParseFields(layout, value, ZeroFields)
    case None => None
    case Some(t) => if 1 <= t.day <= DaysIn(t.month, t.year) then Some(t) else None
  }

  // ------------------------------------------------------ Go's Time.Format

  function FormatToken(t: Token, dt: DateTime): (s: string)
    requires FieldRanges(dt)
  {
    match t
    case Lit(c) => [c]
    case Space => " "
    case _ => Pad(FieldOf(t, dt), TokenWidth(t))
  }

  /** `Time.Format(layout)` for a time in range. */
  function Format(layout: Layout, dt: DateTime): (s: string)
    requires FieldRanges(dt)
    ensures |s| == Width(layout)
  {
    if layout == [] then [] else FormatToken(layout[0], dt) + Format(layout[1..], dt)
  }

  // ------------------------------------------------- round trips of Parse

  /** No literal space, and no two spaces in a row: each space of the
      layout then matches exactly the one space Format writes. */
  predicate WellSpaced(layout: Layout) {
    layout == [] ||
    (&& layout[0] != Lit(' ')
     && (layout[0] == Space && |layout| > 1 ==> layout[1] != Space)
     && WellSpaced(layout[1..]))
  }

  /** Every field element appears at most once. */
  predicate NoRepeats(layout: Layout) {
    layout == [] || ((layout[0].Lit? || layout[0] !in layout[1..]) && NoRepeats(layout[1..]))
  }

  /** `acc` with every field that `layout` mentions taken from `dt`. */
  function Assign(layout: Layout, dt: DateTime, acc: DateTime): DateTime {
    DateTime(
      if LongYear in layout then dt.year else acc.year,
      if ZeroMonth in layout then dt.month else acc.month,
      if ZeroDay in layout then dt.day else acc.day,
      if Hour in layout then dt.hour else acc.hour,
      if ZeroMinute in layout then dt.minute else acc.minute,
      if ZeroSecond in layout then dt.second else acc.second)
  }

  lemma FormatStartsWithNonSpace(layout: Layout, dt: DateTime)
    requires FieldRanges(dt)
    requires layout != [] && layout[0] != Space && layout[0] != Lit(' ')
    ensures Format(layout, dt) != [] && Format(layout, dt)[0] != ' '
  {
    assert Format(layout, dt) == FormatToken(layout[0], dt) + Format(layout[1..], dt);
  }

  /** Reading a field back from its formatted text gives the field. */
  lemma ReadFormatted(t: Token, dt: DateTime, tail: string)
    requires IsField(t) && FieldRanges(dt)
    ensures ReadField(t, FormatToken(t, dt) + tail) == Some((FieldOf(t, dt), tail))
  {
    if t == LongYear {
      var s := FormatToken(t, dt) + tail;
      assert Pow10(4) == 10000;
      ValueOfPad(dt.year, 4);
      assert s[..4] == Pad(dt.year, 4) && s[4..] == tail;
    } else {
      ReadTwoDigits(t, FieldOf(t, dt), FormatToken(t, dt) + tail, tail);
    }
  }

  /** The two digits of `n` followed by `tail` read back as `n` and `tail`. */
  lemma ReadTwoDigits(t: Token, n: int, s: string, tail: string)
    requires IsField(t) && t != LongYear && Fits(t, n) && s == Pad(n, 2) + tail
    ensures ReadField(t, s) == Some((n, tail))
  {
    ShiftDecimal(n / 10, n % 10);
    assert Pad(n, 2) == [DigitChar(n / 10)] + [DigitChar(n % 10)];
    assert s[0] == DigitChar(n / 10) && s[1] == DigitChar(n % 10) && s[2..] == tail;
    assert GetNum(s, t != Hour) == Some((n, tail));
  }

  /** A field read from exactly its width of input formats back to that input. */
  lemma FormatRead(t: Token, s: string)
    requires IsField(t) && ReadField(t, s).Some?
    requires |ReadField(t, s).value.1| == |s| - TokenWidth(t)
    ensures Pad(ReadField(t, s).value.0, TokenWidth(t)) == s[..TokenWidth(t)]
  {
    var n := ReadField(t, s).value.0;
    if t == LongYear {
      PadOfValue(s[..4]);
    } else {
      var g := GetNum(s, t != Hour).value;
      assert n == g.0 && |g.1| == |s| - 2;
      assert IsDigit(s[0]) && IsDigit(s[1]);
      assert n == DigitValue(s[0]) * 10 + DigitValue(s[1]);
      assert Pad(n, 2) == Pad(n / 10, 1) + [DigitChar(n % 10)];
      assert s[..2] == [s[0], s[1]];
    }
  }

  /** Parsing what Format wrote reads back the fields the layout mentions. */
  lemma {:induction false} FormatThenParse(layout: Layout, dt: DateTime, acc: DateTime)
    requires FieldRanges(dt) && WellSpaced(layout)
    ensures ParseFields(layout, Format(layout, dt), acc) == Some(Assign(layout, dt, acc))
  {
    if layout != [] {
      var rest := layout[1..];
      var tail := Format(rest, dt);
      var s := Format(layout, dt);
      assert s == FormatToken(layout[0], dt) + tail;
      match layout[0]
      case Lit(c) =>
        assert s[1..] == tail;
        FormatThenParse(rest, dt, acc);
      case Space =>
        assert s[1..] == tail;
        if rest != [] {
          FormatStartsWithNonSpace(rest, dt);
        }
        assert CutSpace(s) == CutSpace(tail) == tail;
        FormatThenParse(rest, dt, acc);
      case _ =>
        ReadFormatted(layout[0], dt, tail);
        FormatThenParse(rest, dt, Store(layout[0], FieldOf(layout[0], dt), acc));
    }
  }

  /** One field step of ParseThenFormat: given the round trip for the rest
      of the layout, it holds for the whole. */
  lemma ParseThenFormatStep(layout: Layout, s: string, acc: DateTime)
    requires layout != [] && IsField(layout[0])
    requires Space !in layout && NoRepeats(layout) && FieldRanges(acc)
    requires |s| == Width(layout)
    requires ParseFields(layout, s, acc).Some?
    requires ReadField(layout[0], s).Some?
    requires var (n, tail) := ReadField(layout[0], s).value;
      |tail| == |s| - TokenWidth(layout[0]) ==>
      Format(layout[1..], ParseFields(layout[1..], tail, Store(layout[0], n, acc)).value) == tail
    ensures Format(layout, ParseFields(layout, s, acc).value) == s
  {
    var t, rest := layout[0], layout[1..];
    var (n, tail) := ReadField(t, s).value;
    var acc' := Store(t, n, acc);
    var r := ParseFields(layout, s, acc).value;
    assert r == ParseFields(rest, tail, acc').value;
    // ParseFields's width bound rules out a one-digit hour
    assert |tail| <= Width(rest) && |tail| == |s| - TokenWidth(t);
    ParseKeepsUnmentioned(rest, tail, acc');
    UntouchedField(rest, acc', r, t);
    FormatRead(t, s);
    assert Format(layout, r) == FormatToken(t, r) + Format(rest, r);
    assert s == s[..TokenWidth(t)] + tail;
  }

  /** On a layout without spaces, an input of exactly the layout's width
      that parses is what Format writes for the parsed fields: a one-digit
      hour would leave the input longer than the rest of the layout. */
  lemma {:induction false} ParseThenFormat(layout: Layout, s: string, acc: DateTime)
    requires Space !in layout && NoRepeats(layout) && FieldRanges(acc)
    requires |s| == Width(layout)
    requires ParseFields(layout, s, acc).Some?
    ensures Format(layout, ParseFields(layout, s, acc).value) == s
  {
    if layout != [] {
      var rest := layout[1..];
      if layout[0].Lit? {
        ParseThenFormat(rest, s[1..], acc);
        assert s == [layout[0].c] + s[1..];
      } else {
        var (n, tail) := ReadField(layout[0], s).value;
        if |tail| == |s| - TokenWidth(layout[0]) {
          ParseThenFormat(rest, tail, Store(layout[0], n, acc));
        }
        ParseThenFormatStep(layout, s, acc);
      }
    }
  }

  // ------------------------------------------------- Format piece by piece

  lemma FormatStep(layout: Layout, dt: DateTime)
    requires FieldRanges(dt) && layout != []
    ensures Format(layout, dt) == FormatToken(layout[0], dt) + Format(layout[1..], dt)
  {
  }

  /** Format writes the elements of a layout one after another. */
  lemma {:induction false} FormatConcat(a: Layout, b: Layout, dt: DateTime)
    requires FieldRanges(dt)
    ensures Format(a + b, dt) == Format(a, dt) + Format(b, dt)
  {
    if a != [] {
      assert (a + b)[0] == a[0] && (a + b)[1..] == a[1..] + b;
      FormatStep(a + b, dt);
      FormatStep(a, dt);
      FormatConcat(a[1..], b, dt);
    } else {
      assert a + b == b;
    }
  }

  lemma FormatPair(t: Token, u: Token, dt: DateTime)
    requires FieldRanges(dt)
    ensures Format([t, u], dt) == FormatToken(t, dt) + FormatToken(u, dt)
  {
    var l: Layout := [t, u];
    FormatStep(l, dt);
    FormatStep(l[1..], dt);
    assert l[1..][1..] == [];
  }

  lemma FormatSingle(t: Token, dt: DateTime)
    requires FieldRanges(dt)
    ensures Format([t], dt) == FormatToken(t, dt)
  {
    var l: Layout := [t];
    FormatStep(l, dt);
    assert l[1..] == [];
  }

  /** The FLV layout written as three pairs and the clock. */
  lemma FlvPieces(dt: DateTime)
    requires FieldRanges(dt)
    ensures Format(FlvLayout, dt) ==
      Format([LongYear, Lit('/')], dt) + (Format([ZeroMonth, Lit('/')], dt) +
      (Format([ZeroDay, Lit('/')], dt) + Format([Hour, ZeroMinute, ZeroSecond], dt)))
  {
    var a: Layout, b: Layout, c: Layout, d: Layout :=
      [LongYear, Lit('/')], [ZeroMonth, Lit('/')], [ZeroDay, Lit('/')], [Hour, ZeroMinute, ZeroSecond];
    assert FlvLayout == a + (b + (c + d));
    FormatConcat(a, b + (c + d), dt);
    FormatConcat(b, c + d, dt);
    FormatConcat(c, d, dt);
  }

  lemma FormatClock(dt: DateTime)
    requires FieldRanges(dt)
    ensures Format([Hour, ZeroMinute, ZeroSecond], dt) == Pad(dt.hour, 2) + Pad(dt.minute, 2) + Pad(dt.second, 2)
  {
    var l: Layout := [Hour, ZeroMinute, ZeroSecond];
    FormatStep(l, dt);
    FormatStep(l[1..], dt);
    FormatStep(l[2..], dt);
    assert l[1..][1..][1..] == [];
  }

  // ------------------------------------------------------- the layouts

  lemma FlvWidth() ensures Width(FlvLayout) == 17 {}
  /** A layout grown at the front by a token it does not already hold (or a
      literal) keeps every field element unique. */
  lemma NoRepeatsCons(t: Token, layout: Layout)
    requires NoRepeats(layout) && (t.Lit? || t !in layout)
    ensures NoRepeats([t] + layout)
  {
    assert ([t] + layout)[1..] == layout;
  }

  /** A layout without spaces grown at the front by a token that is not a
      space stays well spaced. */
  lemma WellSpacedCons(t: Token, layout: Layout)
    requires WellSpaced(layout) && Space !in layout && t != Space && t != Lit(' ')
    ensures WellSpaced([t] + layout) && Space !in [t] + layout
  {
    assert ([t] + layout)[1..] == layout;
  }

  /** The facts about a layout of fields and separators other than spaces,
      built from its last token to its first. */
  lemma {:induction false} PlainLayout(layout: Layout)
    requires forall i, j :: 0 <= i < j < |layout| && !layout[i].Lit? ==> layout[i] != layout[j]
    requires forall i :: 0 <= i < |layout| ==> layout[i] != Space && layout[i] != Lit(' ')
    ensures Space !in layout && NoRepeats(layout) && WellSpaced(layout)
  {
    if layout != [] {
      var rest := layout[1..];
      PlainLayout(rest);
      assert layout == [layout[0]] + rest;
      NoRepeatsCons(layout[0], rest);
      WellSpacedCons(layout[0], rest);
    }
  }

  lemma FlvPlain() ensures Space !in FlvLayout && NoRepeats(FlvLayout) && WellSpaced(FlvLayout) {
    PlainLayout(FlvLayout);
  }
  lemma FlvCovers() ensures forall t :: IsField(t) ==> t in FlvLayout {}

  lemma FlvLayoutFacts()
    ensures Width(FlvLayout) == 17
    ensures Space !in FlvLayout && NoRepeats(FlvLayout) && WellSpaced(FlvLayout)
    ensures forall t :: IsField(t) ==> t in FlvLayout
  {
    FlvWidth();
    FlvPlain();
    FlvCovers();
  }

  lemma Mp4Width() ensures Width(Mp4Layout) == 19 {}
  lemma Mp4Plain() ensures Space !in Mp4Layout && NoRepeats(Mp4Layout) && WellSpaced(Mp4Layout) {
    PlainLayout(Mp4Layout);
  }
  lemma Mp4Covers() ensures forall t :: IsField(t) ==> t in Mp4Layout {}

  lemma Mp4LayoutFacts()
    ensures Width(Mp4Layout) == 19
    ensures Space !in Mp4Layout && NoRepeats(Mp4Layout) && WellSpaced(Mp4Layout)
    ensures forall t :: IsField(t) ==> t in Mp4Layout
  {
    Mp4Width();
    Mp4Plain();
    Mp4Covers();
  }

  /** Tokens other than spaces put in front of a well-spaced layout keep
      it well spaced. */
  lemma {:induction false} WellSpacedAppend(a: Layout, b: Layout)
    requires Space !in a && Lit(' ') !in a && WellSpaced(b)
    ensures WellSpaced(a + b)
  {
    if a != [] {
      assert a == [a[0]] + a[1..];
      WellSpacedAppend(a[1..], b);
      assert (a + b)[1..] == a[1..] + b;
    } else {
      assert a + b == b;
    }
  }

  lemma QueryLayoutFacts()
    ensures WellSpaced(QueryLayout)
    ensures forall t :: IsField(t) ==> t in QueryLayout
  {
    var clock := QueryLayout[6..];
    PlainLayout(clock);
    var l := [Space] + clock;
    assert l[1..] == clock && l[1] == Hour;
    var date := QueryLayout[..5];
    WellSpacedAppend(date, l);
    assert QueryLayout == date + l;
  }

  /** A layout that mentions every field reads back a whole date and time. */
  lemma AssignAll(layout: Layout, dt: DateTime, acc: DateTime)
    requires forall t :: IsField(t) ==> t in layout
    ensures Assign(layout, dt, acc) == dt
  {
    assert LongYear in layout && ZeroMonth in layout && ZeroDay in layout;
    assert Hour in layout && ZeroMinute in layout && ZeroSecond in layout;
  }

  // ------------------------------------------------- instants and zones

  /** Days from 1970-01-01 to the given date of the proleptic Gregorian
      calendar (the count Go's `time.Date` computes). Dafny's `/` on `int`
      rounds down for a positive divisor, as this calculation needs. */
  function DaysFromCivil(year: int, month: int, day: int): int
    requires 1 <= month <= 12
  {
    var y := if month <= 2 then year - 1 else year;
    var era := y / 400;
    var yearOfEra := y - era * 400;
    var shiftedMonth := if month > 2 then month - 3 else month + 9;
    var dayOfYear := (153 * shiftedMonth + 2) / 5 + day - 1;
    var dayOfEra := yearOfEra * 365 + yearOfEra / 4 - yearOfEra / 100 + dayOfYear;
    era * 146097 + dayOfEra - 719468
  }

  /** `t.Unix()` for the time with fields `dt` in a zone `offset` seconds
      east of UTC. */
  function UnixSeconds(dt: DateTime, offset: int): int
    requires 1 <= dt.month <= 12
  {
    DaysFromCivil(dt.year, dt.month, dt.day) * 86400 + dt.hour * 3600 + dt.minute * 60 + dt.second - offset
  }

  /** The zone `time.LoadLocation("Local")` yields: a failure, or a fixed
      offset from UTC in seconds. */
  datatype Zone = Unavailable | Fixed(offset: int)

  /** `time.Unix(0, 0).Unix()`: the fallback of `getTimestamp`. */
  const Epoch: int := 0

  // ------------------------------------------------- main.go:507-532

  /** `strToDatetime(t)`: a query bound parsed in the configured zone `LOC`,
      `offset` seconds east of UTC; None is Go's parse error. */
  function StrToDatetime(t: string, offset: int): (r: Option<int>)
    ensures r.Some? <==> Parse(QueryLayout, t).Some?
    ensures r.Some? ==> r.value == UnixSeconds(Parse(QueryLayout, t).value, offset)
  {
    match Parse(QueryLayout, t)
    case None => None
    case Some(dt) => Some(UnixSeconds(dt, offset))
  }

  /** `getTimestamp(path, start, end, layout)`: parses the bytes of `path`
      from `start` before its end up to `end` before its end; on any failure
      the result is the epoch. The slice needs `end <= start <= |path|`
      (Go panics otherwise). */
  function GetTimestamp(path: string, start: nat, end: nat, layout: Layout, zone: Zone): int
    requires end <= start <= |path|
  {
    var s := path[|path| - start..|path| - end];
    match zone
    case Unavailable => Epoch
    case Fixed(offset) =>
      match Parse(layout, s)
      case None => Epoch
      case Some(dt) => UnixSeconds(dt, offset)
  }

  /** The two kinds of segment, told apart by extension. */
  datatype Kind = Flv | Mp4

  /** How many bytes before the end of the path the timestamp window starts. */
  function WindowStart(kind: Kind): nat {
    if kind == Flv then 21 else 23
  }

  /** The window ends before the four-byte extension. */
  const WindowEnd: nat := 4

  function LayoutOf(kind: Kind): Layout {
    if kind == Flv then FlvLayout else Mp4Layout
  }

  /** `getFlvTimestamp` and `getMp4Timestamp`: `getTimestamp` with the
      window and layout of the kind. */
  function KindTimestamp(path: string, kind: Kind, zone: Zone): int
    requires |path| >= WindowStart(kind)
  {
    GetTimestamp(path, WindowStart(kind), WindowEnd, LayoutOf(kind), zone)
  }

  /** The bytes of `path` that `getTimestamp` parses for a kind. */
  function Window(path: string, kind: Kind): (w: string)
    requires |path| >= WindowStart(kind)
    ensures |w| == Width(LayoutOf(kind))
  {
    FlvWidth();
    Mp4Width();
    path[|path| - WindowStart(kind)..|path| - WindowEnd]
  }

  /** The window of a segment path parses to `dt` exactly when it is the
      layout's rendering of a valid `dt`: both directions of the round trip. */
  lemma {:induction false} WindowParseIff(kind: Kind, w: string, dt: DateTime)
    requires |w| == Width(LayoutOf(kind))
    ensures Parse(LayoutOf(kind), w) == Some(dt) <==> Valid(dt) && Format(LayoutOf(kind), dt) == w
  {
    var layout := LayoutOf(kind);
    FlvLayoutFacts();
    Mp4LayoutFacts();
    if Parse(layout, w) == Some(dt) {
      ParseThenFormat(layout, w, ZeroFields);
    }
    if Valid(dt) && Format(layout, dt) == w {
      FormatThenParse(layout, dt, ZeroFields);
      AssignAll(layout, dt, ZeroFields);
    }
  }

  /** A segment named after a valid time gets that time, in the zone's
      offset; a window that is not such a rendering gets the epoch. */
  lemma {:induction false} KindTimestampMeaning(path: string, kind: Kind, offset: int, dt: DateTime)
    requires |path| >= WindowStart(kind)
    ensures Valid(dt) && Window(path, kind) == Format(LayoutOf(kind), dt) ==>
      KindTimestamp(path, kind, Fixed(offset)) == UnixSeconds(dt, offset)
    ensures Parse(LayoutOf(kind), Window(path, kind)).None? ==> KindTimestamp(path, kind, Fixed(offset)) == Epoch
    ensures KindTimestamp(path, kind, Unavailable) == Epoch
  {
    WindowParseIff(kind, Window(path, kind), dt);
  }

  /** Every valid time written in the query layout parses back to itself
      (the query layout also accepts more: several spaces, a one-digit hour). */
  lemma QueryRoundTrip(dt: DateTime, offset: int)
    requires Valid(dt)
    ensures StrToDatetime(Format(QueryLayout, dt), offset) == Some(UnixSeconds(dt, offset))
  {
    QueryLayoutFacts();
    FormatThenParse(QueryLayout, dt, ZeroFields);
    AssignAll(QueryLayout, dt, ZeroFields);
  }
}
