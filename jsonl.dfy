/** The partitioned JSON-lines sink (src/sinks/jsonl.py): where an event is
    filed (one file per channel, UTC day and symbol), the record written for
    it, and the buffer that collects records per file until a count or time
    threshold flushes them. The file system is a map from path to the records
    appended to that file; the event-loop clock is an input. */
module Jsonl {
  import opened Common
  import opened Normalizer

  // ---------------------------------------------------------------------
  // The UTC calendar day of a timestamp (proleptic Gregorian calendar,
  // ordinal 1 = 0001-01-01, as Python's datetime counts days).
  // ---------------------------------------------------------------------

  datatype Date = Date(year: int, month: int, day: int)

  predicate IsLeap(y: int)
  {
    y % 4 == 0 && (y % 100 != 0 || y % 400 == 0)
  }

  /** Days in month m of a year that is (or is not) a leap year. */
  function MonthLength(m: int, leap: bool): int
  {
    if m == 2 then (if leap then 29 else 28)
    else if m == 4 || m == 6 || m == 9 || m == 11 then 30
    else 31
  }

  function DaysInMonth(y: int, m: int): int
  {
    MonthLength(m, IsLeap(y))
  }

  /** Days of a common year before month m. */
  function CommonDaysBeforeMonth(m: int): int
  {
    if m <= 1 then 0
    else if m == 2 then 31
    else if m == 3 then 59
    else if m == 4 then 90
    else if m == 5 then 120
    else if m == 6 then 151
    else if m == 7 then 181
    else if m == 8 then 212
    else if m == 9 then 243
    else if m == 10 then 273
    else if m == 11 then 304
    else 334
  }

  /** Days of a year before month m. */
  function DaysBefore(m: int, leap: bool): int
  {
    CommonDaysBeforeMonth(m) + (if m > 2 && leap then 1 else 0)
  }

  function DaysBeforeMonth(y: int, m: int): int
  {
    DaysBefore(m, IsLeap(y))
  }

  function DaysBeforeYear(year: int): int
  {
    var y := year - 1;
    y * 365 + y / 4 - y / 100 + y / 400
  }

  predicate ValidDate(d: Date)
  {
    1 <= d.month <= 12 && 1 <= d.day <= DaysInMonth(d.year, d.month)
  }

  /** The day number of a date. */
  function Ordinal(d: Date): int
  {
    DaysBeforeYear(d.year) + DaysBeforeMonth(d.year, d.month) + d.day
  }

  /** Month and day of day r1 (from 0) of a year: the month is first
      estimated as (r1 + 50) / 32 and moved back one if that overshoots. */
  function MonthDay(r1: int, leap: bool): (int, int)
  {
    var month := (r1 + 50) / 32;
    var preceding := DaysBefore(month, leap);
    if preceding > r1 then
      var prev := month - 1;
      (prev, r1 - (preceding - MonthLength(prev, leap)) + 1)
    else (month, r1 - preceding + 1)
  }

  /** Day n (from 0) split into whole 400-, 100-, 4- and 1-year cycles and
      the day r1 within the last year. */
  datatype Cycles = Cycles(n400: int, n100: int, n4: int, n1: int, r1: int)

  function CyclesOf(n: int): Cycles
  {
    var r400 := n % 146097;
    var r100 := r400 % 36524;
    var r4 := r100 % 1461;
    Cycles(n / 146097, r400 / 36524, r100 / 1461, r4 / 365, r4 % 365)
  }

  /** The date of a day number: whole cycles first, then the month within the
      year. A fourth 1-year or 100-year cycle that is full ends on the last
      day of the year before. */
  function DateOf(ord: int): Date
  {
    var c := CyclesOf(ord - 1);
    var year := c.n400 * 400 + 1 + c.n100 * 100 + c.n4 * 4 + c.n1;
    if c.n1 == 4 || c.n100 == 4 then Date(year - 1, 12, 31)
    else
      var md := MonthDay(c.r1, c.n1 == 3 && (c.n4 != 24 || c.n100 == 3));
      Date(year, md.0, md.1)
  }

  lemma CyclesSum(n: int)
    ensures var c := CyclesOf(n);
      && n == c.n400 * 146097 + c.n100 * 36524 + c.n4 * 1461 + c.n1 * 365 + c.r1
      && 0 <= c.n100 <= 4 && 0 <= c.n4 <= 24 && 0 <= c.n1 <= 4 && 0 <= c.r1 < 365
      && (c.n100 == 4 ==> c.n4 == 0 && c.n1 == 0 && c.r1 == 0)
      && (c.n1 == 4 ==> c.r1 == 0)
      && (c.n4 == 24 && c.n100 < 4 ==> c.n1 < 4 && c.n1 * 365 + c.r1 < 1460)
  {
    var r400 := n % 146097;
    var r100 := r400 % 36524;
    var r4 := r100 % 1461;
    assert n == (n / 146097) * 146097 + r400;
    assert r400 == (r400 / 36524) * 36524 + r100;
    assert r100 == (r100 / 1461) * 1461 + r4;
    assert r4 == (r4 / 365) * 365 + r4 % 365;
  }

  /** Division by a cycle length with a known quotient and remainder. */
  lemma DivBy(a: int, q: int, r: int, b: int)
    requires b == 4 || b == 100 || b == 400
    requires 0 <= r < b && a == q * b + r
    ensures a / b == q && a % b == r
  {
    if b == 4 {
      assert a == q * 4 + r;
    } else if b == 100 {
      assert a == q * 100 + r;
    } else {
      assert a == q * 400 + r;
    }
  }

  lemma YearStart(n400: int, n100: int, n4: int, n1: int)
    requires 0 <= n100 <= 3 && 0 <= n4 <= 24 && 0 <= n1 <= 3
    ensures DaysBeforeYear(n400 * 400 + 1 + n100 * 100 + n4 * 4 + n1)
         == n400 * 146097 + n100 * 36524 + n4 * 1461 + n1 * 365
    ensures IsLeap(n400 * 400 + 1 + n100 * 100 + n4 * 4 + n1) <==> (n1 == 3 && (n4 != 24 || n100 == 3))
  {
    YearStartDays(n400, n100, n4, n1);
    YearStartLeap(n400, n100, n4, n1);
  }

  lemma YearStartDays(n400: int, n100: int, n4: int, n1: int)
    requires 0 <= n100 <= 3 && 0 <= n4 <= 24 && 0 <= n1 <= 3
    ensures DaysBeforeYear(n400 * 400 + 1 + n100 * 100 + n4 * 4 + n1)
         == n400 * 146097 + n100 * 36524 + n4 * 1461 + n1 * 365
  {
    var y := n400 * 400 + n100 * 100 + n4 * 4 + n1;
    DivBy(y, n400 * 100 + n100 * 25 + n4, n1, 4);
    DivBy(y, n400 * 4 + n100, n4 * 4 + n1, 100);
    DivBy(y, n400, n100 * 100 + n4 * 4 + n1, 400);
  }

  lemma YearStartLeap(n400: int, n100: int, n4: int, n1: int)
    requires 0 <= n100 <= 3 && 0 <= n4 <= 24 && 0 <= n1 <= 3
    ensures IsLeap(n400 * 400 + 1 + n100 * 100 + n4 * 4 + n1) <==> (n1 == 3 && (n4 != 24 || n100 == 3))
  {
    var year := n400 * 400 + 1 + n100 * 100 + n4 * 4 + n1;
    if n1 == 3 {
      DivBy(year, n400 * 100 + n100 * 25 + n4 + 1, 0, 4);
      if n4 == 24 {
        DivBy(year, n400 * 4 + n100 + 1, 0, 100);
        if n100 == 3 {
          DivBy(year, n400 + 1, 0, 400);
        } else {
          DivBy(year, n400, (n100 + 1) * 100, 400);
        }
      } else {
        DivBy(year, n400 * 4 + n100, n4 * 4 + 4, 100);
      }
    } else {
      DivBy(year, n400 * 100 + n100 * 25 + n4, n1 + 1, 4);
    }
  }

  /** Day r1 of a year is a valid month and day whose offset in the year is r1. */
  lemma MonthDayValid(r1: int, leap: bool)
    requires 0 <= r1 < (if leap then 366 else 365)
    ensures var md := MonthDay(r1, leap);
      1 <= md.0 <= 12 && 1 <= md.1 <= MonthLength(md.0, leap) && DaysBefore(md.0, leap) + md.1 - 1 == r1
  {
  }

  /** Every day number names a valid date, and that date's number is the day number. */
  lemma DateOfOrdinal(ord: int)
    ensures ValidDate(DateOf(ord)) && Ordinal(DateOf(ord)) == ord
  {
    var c := CyclesOf(ord - 1);
    CyclesSum(ord - 1);
    if c.n100 == 4 {
      YearStart(c.n400, 3, 24, 3);
    } else if c.n1 == 4 {
      YearStart(c.n400, c.n100, c.n4, 3);
    } else {
      YearStart(c.n400, c.n100, c.n4, c.n1);
      MonthDayValid(c.r1, c.n1 == 3 && (c.n4 != 24 || c.n100 == 3));
    }
  }

  const MsPerDay := 86_400_000

  /** Day number of 1970-01-01. */
  const EpochOrdinal := 719_163

  /** The UTC calendar day of an epoch-millisecond timestamp. */
  function UtcDate(tsMs: int): Date
  {
    DateOf(tsMs / MsPerDay + EpochOrdinal)
  }

  lemma EpochDate()
    ensures UtcDate(0) == Date(1970, 1, 1) && UtcDate(-1) == Date(1969, 12, 31)
  {
    assert CyclesOf(719_162) == Cycles(4, 3, 17, 1, 0);
    assert MonthDay(0, false) == (1, 1);
    assert -1 / MsPerDay == -1;
    assert CyclesOf(719_161) == Cycles(4, 3, 17, 0, 364);
    assert MonthDay(364, false) == (12, 31);
  }

  /** Two timestamps fall on the same UTC date exactly when they fall in the
      same whole day since the epoch. */
  lemma SameUtcDate(t1: int, t2: int)
    ensures UtcDate(t1) == UtcDate(t2) <==> t1 / MsPerDay == t2 / MsPerDay
  {
    DateOfInjective(t1 / MsPerDay + EpochOrdinal, t2 / MsPerDay + EpochOrdinal);
  }

  /** Distinct day numbers name distinct dates. */
  lemma DateOfInjective(o1: int, o2: int)
    ensures DateOf(o1) == DateOf(o2) ==> o1 == o2
  {
    DateOfOrdinal(o1);
    DateOfOrdinal(o2);
  }

  // ---------------------------------------------------------------------
  // `strftime("%Y-%m-%d")`
  // ---------------------------------------------------------------------

  function Digit(n: int): (c: char)
    requires 0 <= n < 10
    ensures IsDigit(c) && c as int - 48 == n
  {
    (48 + n) as char
  }

  predicate IsDigit(c: char)
  {
    '0' <= c <= '9'
  }

  /** The number a string of decimal digits spells. */
  function DigitsValue(s: string): int
  {
    if s == [] then 0 else 10 * DigitsValue(s[..|s| - 1]) + (s[|s| - 1] as int - 48)
  }

  function Pad2(n: int): (s: string)
    requires 0 <= n < 100
    ensures |s| == 2 && (forall i :: 0 <= i < 2 ==> IsDigit(s[i])) && DigitsValue(s) == n
  {
    var s := [Digit(n / 10), Digit(n % 10)];
    assert s[..1] == [Digit(n / 10)] && s[..1][..0] == [];
    assert DigitsValue(s[..1]) == n / 10;
    s
  }

  /** Appending two digits shifts the value two places. */
  lemma DigitsValueAppend2(a: string, b: string)
    requires |b| == 2
    ensures DigitsValue(a + b) == 100 * DigitsValue(a) + DigitsValue(b)
  {
    var d0, d1 := b[0] as int - 48, b[1] as int - 48;
    assert (a + b)[..|a + b| - 1] == a + [b[0]];
    assert DigitsValue(a + b) == 10 * DigitsValue(a + [b[0]]) + d1;
    assert (a + [b[0]])[..|a|] == a;
    assert DigitsValue(a + [b[0]]) == 10 * DigitsValue(a) + d0;
    assert b[..1] == [b[0]] && [b[0]][..0] == [];
    assert DigitsValue(b[..1]) == d0;
    assert DigitsValue(b) == 10 * d0 + d1;
  }

  function Pad4(n: int): (s: string)
    requires 0 <= n < 10000
    ensures |s| == 4 && (forall i :: 0 <= i < 4 ==> IsDigit(s[i])) && DigitsValue(s) == n
  {
    var hi := Pad2(n / 100);
    var lo := Pad2(n % 100);
    DigitsValueAppend2(hi, lo);
    hi + lo
  }

  predicate Printable(d: Date)
  {
    0 <= d.year <= 9999 && 1 <= d.month <= 12 && 1 <= d.day <= 31
  }

  /** `YYYY-MM-DD` */
  function DateText(d: Date): (s: string)
    requires Printable(d)
    ensures |s| == 10
  {
    Pad4(d.year) + "-" + Pad2(d.month) + "-" + Pad2(d.day)
  }

  /** Reads `YYYY-MM-DD` back. */
  function ParseDate(s: string): Option<Date>
  {
    if |s| == 10 && s[4] == '-' && s[7] == '-'
       && (forall i :: 0 <= i < 10 && i != 4 && i != 7 ==> IsDigit(s[i]))
    then Some(Date(DigitsValue(s[..4]), DigitsValue(s[5..7]), DigitsValue(s[8..])))
    else None
  }

  /** The printed date reads back as the same date, so distinct dates print differently. */
  lemma DateTextRoundTrip(d: Date)
    requires Printable(d)
    ensures ParseDate(DateText(d)) == Some(d)
  {
    var s := DateText(d);
    var y, m, dd := Pad4(d.year), Pad2(d.month), Pad2(d.day);
    assert s == y + "-" + m + "-" + dd;
    assert s[..4] == y;
    assert s[5..7] == m;
    assert s[8..] == dd;
    assert forall i :: 0 <= i < 4 ==> s[i] == y[i];
    assert forall i :: 5 <= i < 7 ==> s[i] == m[i - 5];
    assert forall i :: 8 <= i < 10 ==> s[i] == dd[i - 8];
  }

  // ---------------------------------------------------------------------
  // `os.path.join` and the partition path
  // ---------------------------------------------------------------------

  /** `os.path.join(a, b)` on POSIX: an absolute `b` replaces what came before;
      otherwise a separator is inserted unless `a` is empty or already ends in one. */
  function Join(a: string, b: string): string
  {
    if |b| > 0 && b[0] == '/' then b
    else if a == [] || a[|a| - 1] == '/' then a + b
    else a + "/" + b
  }

  /** `datetime.fromtimestamp` refuses dates outside years 1 to 9999. */
  datatype PathFault = YearOutOfRange(year: int)

  /** `os.path.join(root, "okx", channel, <date>, f"{symbol}.jsonl")` */
  function DayPath(root: string, channel: string, symbol: string, d: Date): string
    requires Printable(d)
  {
    Join(Join(Join(Join(root, "okx"), channel), DateText(d)), symbol + ".jsonl")
  }

  /** `_partition_path(root, channel, symbol, ts_ms)` */
  function PartitionPath(root: string, channel: string, symbol: string, tsMs: int): (r: Result<string, PathFault>)
    ensures r.Err? <==> !(1 <= UtcDate(tsMs).year <= 9999)
    ensures r.Ok? ==> Printable(UtcDate(tsMs)) && r.value == DayPath(root, channel, symbol, UtcDate(tsMs))
  {
    var d := UtcDate(tsMs);
    if 1 <= d.year <= 9999 then
      DateOfOrdinal(tsMs / MsPerDay + EpochOrdinal);
      Ok(DayPath(root, channel, symbol, d))
    else Err(YearOutOfRange(d.year))
  }

  /** Joining a date and then a relative name puts the date, whole, right
      after the directory prefix. */
  lemma DatePart(a: string, date: string, tail: string)
    requires |date| == 10 && IsDigit(date[0]) && IsDigit(date[9])
    requires tail == [] || tail[0] != '/'
    ensures Join(Join(a, date), tail)
         == (if a == [] || a[|a| - 1] == '/' then a else a + "/") + date + "/" + tail
  {
  }

  /** Different dates give different files, unless the symbol is an absolute path. */
  lemma DayPathInjective(root: string, channel: string, symbol: string, d1: Date, d2: Date)
    requires Printable(d1) && Printable(d2)
    requires symbol == [] || symbol[0] != '/'
    ensures DayPath(root, channel, symbol, d1) == DayPath(root, channel, symbol, d2) ==> d1 == d2
  {
    var a := Join(Join(root, "okx"), channel);
    var s1, s2 := DateText(d1), DateText(d2);
    var tail := symbol + ".jsonl";
    var prefix := if a == [] || a[|a| - 1] == '/' then a else a + "/";
    DateTextRoundTrip(d1);
    DateTextRoundTrip(d2);
    DatePart(a, s1, tail);
    DatePart(a, s2, tail);
    Middle(prefix, s1, "/", tail);
    Middle(prefix, s2, "/", tail);
  }

  lemma Middle<T>(p: seq<T>, x: seq<T>, c: seq<T>, q: seq<T>)
    ensures (p + x + c + q)[|p|..|p| + |x|] == x
  {
    assert p + x + c + q == p + (x + (c + q));
  }

  /** Events of one channel and symbol share a file exactly when they fall on
      the same UTC day (the symbol must not itself be an absolute path). */
  lemma SamePathIffSameDay(root: string, channel: string, symbol: string, t1: int, t2: int)
    requires PartitionPath(root, channel, symbol, t1).Ok? && PartitionPath(root, channel, symbol, t2).Ok?
    requires symbol == [] || symbol[0] != '/'
    ensures PartitionPath(root, channel, symbol, t1) == PartitionPath(root, channel, symbol, t2)
            <==> t1 / MsPerDay == t2 / MsPerDay
  {
    SameUtcDate(t1, t2);
    DayPathInjective(root, channel, symbol, UtcDate(t1), UtcDate(t2));
  }

  /** With a plain root and plain components the path reads
      `root/okx/<channel>/<YYYY-MM-DD>/<symbol>.jsonl`. */
  lemma PathLayout(root: string, channel: string, symbol: string, d: Date)
    requires Printable(d)
    requires root != [] && root[|root| - 1] != '/'
    requires channel != [] && channel[0] != '/' && channel[|channel| - 1] != '/'
    requires symbol == [] || symbol[0] != '/'
    ensures DayPath(root, channel, symbol, d)
         == root + "/okx/" + channel + "/" + DateText(d) + "/" + symbol + ".jsonl"
  {
    assert Join(root, "okx") == root + "/okx";
    assert Join(root + "/okx", channel) == root + "/okx/" + channel;
    DatePart(root + "/okx/" + channel, DateText(d), symbol + ".jsonl");
  }

  // ---------------------------------------------------------------------
  // The record written for an event (`_event_to_dict`)
  // ---------------------------------------------------------------------

  function LevelRecord(l: BookLevel): Json
  {
    JArr([JFloat(l.price), JFloat(l.size), JInt(l.count)])
  }

  function LevelRecords(levels: seq<BookLevel>): (r: seq<Json>)
    ensures |r| == |levels| && forall i :: 0 <= i < |levels| ==> r[i] == LevelRecord(levels[i])
  {
    seq(|levels|, i requires 0 <= i < |levels| => LevelRecord(levels[i]))
  }

  function PayloadRecord(p: Payload): Json
  {
    match p
    case Book(b) =>
      JObj([("n", JInt(b.n)), ("best_bid", JFloat(b.bestBid)), ("best_ask", JFloat(b.bestAsk)),
            ("bids", JArr(LevelRecords(b.bids))), ("asks", JArr(LevelRecords(b.asks)))])
    case Trade(t) =>
      JObj([("price", JFloat(t.price)), ("size", JFloat(t.size)), ("side", t.side), ("trade_id", t.tradeId)])
  }

  /** The nine event fields in declaration order, then the payload. */
  function EventRecord(e: NormalizedEvent): Json
  {
    JObj([("exchange", JStr(e.exchange)), ("symbol", JStr(e.symbol)), ("channel", JStr(e.channel)),
          ("event_type", JStr(e.eventType)), ("ts_exchange_ms", JInt(e.tsExchangeMs)),
          ("ts_recv_epoch_ms", JInt(e.tsRecvEpochMs)), ("ts_recv_mono_ns", JInt(e.tsRecvMonoNs)),
          ("ts_decoded_mono_ns", JInt(e.tsDecodedMonoNs)), ("ts_proc_mono_ns", JInt(e.tsProcMonoNs)),
          ("payload", PayloadRecord(e.payload))])
  }

  /** Reads a record back, member by member in the order it is written. */
  function ReadLevel(j: Json): Option<BookLevel>
  {
    if j.JArr? && |j.items| == 3 && j.items[0].JFloat? && j.items[1].JFloat? && j.items[2].JInt?
    then Some(BookLevel(j.items[0].r, j.items[1].r, j.items[2].i))
    else None
  }

  function ReadLevels(items: seq<Json>): Option<seq<BookLevel>>
  {
    if items == [] then Some([])
    else
      match (ReadLevels(items[..|items| - 1]), ReadLevel(items[|items| - 1]))
      case (Some(ls), Some(l)) => Some(ls + [l])
      case _ => None
  }

  predicate Keyed(m: seq<(string, Json)>, keys: seq<string>)
  {
    |m| == |keys| && forall i :: 0 <= i < |m| ==> m[i].0 == keys[i]
  }

  function ReadPayload(j: Json): Option<Payload>
  {
    if !j.JObj? then None
    else
      var m := j.members;
      if Keyed(m, ["n", "best_bid", "best_ask", "bids", "asks"]) then
        if m[0].1.JInt? && m[1].1.JFloat? && m[2].1.JFloat? && m[3].1.JArr? && m[4].1.JArr? then
          match (ReadLevels(m[3].1.items), ReadLevels(m[4].1.items))
          case (Some(bids), Some(asks)) => Some(Book(BookPayload(m[0].1.i, m[1].1.r, m[2].1.r, bids, asks)))
          case _ => None
        else None
      else if Keyed(m, ["price", "size", "side", "trade_id"]) && m[0].1.JFloat? && m[1].1.JFloat? then
        Some(Trade(TradePayload(m[0].1.r, m[1].1.r, m[2].1, m[3].1)))
      else None
  }

  /** The member names of an event record, in order. */
  const EventKeys: seq<string> := ["exchange", "symbol", "channel", "event_type", "ts_exchange_ms", "ts_recv_epoch_ms",
                                   "ts_recv_mono_ns", "ts_decoded_mono_ns", "ts_proc_mono_ns", "payload"]

  function ReadEvent(j: Json): Option<NormalizedEvent>
  {
    if !j.JObj? then None
    else
      var m := j.members;
      if Keyed(m, EventKeys)
         && m[0].1.JStr? && m[1].1.JStr? && m[2].1.JStr? && m[3].1.JStr?
         && m[4].1.JInt? && m[5].1.JInt? && m[6].1.JInt? && m[7].1.JInt? && m[8].1.JInt?
      then
        match ReadPayload(m[9].1)
        case Some(p) =>
          Some(NormalizedEvent(m[0].1.s, m[1].1.s, m[2].1.s, m[3].1.s, m[4].1.i, m[5].1.i, m[6].1.i, m[7].1.i, m[8].1.i, p))
        case None => None
      else None
  }

  lemma {:induction false} LevelsRoundTrip(levels: seq<BookLevel>)
    ensures ReadLevels(LevelRecords(levels)) == Some(levels)
  {
    if levels != [] {
      var init := levels[..|levels| - 1];
      LevelsRoundTrip(init);
      assert LevelRecords(levels)[..|levels| - 1] == LevelRecords(init);
      assert levels == init + [levels[|levels| - 1]];
    }
  }

  /** The record keeps every field of the event: reading it back gives the event. */
  lemma PayloadRoundTrip(p: Payload)
    ensures ReadPayload(PayloadRecord(p)) == Some(p)
  {
    match p
    case Book(b) =>
      LevelsRoundTrip(b.bids);
      LevelsRoundTrip(b.asks);
      var m := PayloadRecord(p).members;
      assert Keyed(m, ["n", "best_bid", "best_ask", "bids", "asks"]);
    case Trade(t) =>
      var m := PayloadRecord(p).members;
      assert !Keyed(m, ["n", "best_bid", "best_ask", "bids", "asks"]);
      assert Keyed(m, ["price", "size", "side", "trade_id"]);
  }

  /** The record keeps every field of the event: reading it back gives the event. */
  lemma RecordRoundTrip(e: NormalizedEvent)
    ensures ReadEvent(EventRecord(e)) == Some(e)
  {
    PayloadRoundTrip(e.payload);
    EventRecordKeyed(e);
  }

  lemma EventRecordKeyed(e: NormalizedEvent)
    ensures Keyed(EventRecord(e).members, EventKeys)
  {
    var m := EventRecord(e).members;
    assert forall i :: 0 <= i < |m| ==> m[i].0 == EventKeys[i];
  }

  // ---------------------------------------------------------------------
  // The sink
  // ---------------------------------------------------------------------

  /** The records at `path`, none if absent. */
  function Records(m: map<string, seq<Json>>, path: string): seq<Json>
  {
    if path in m then m[path] else []
  }

  function Lengths(m: map<string, seq<Json>>): map<string, nat>
  {
    map p | p in m :: |m[p]|
  }

  class JsonlSink {
    const root: string
    const flushIntervalSec: real
    const flushCount: int
    /** Records waiting to be appended, per file. */
    var buffer: map<string, seq<Json>>
    var bufferCount: nat
    var lastFlushTime: real
    /** The files under `root`: the records appended to each, in order. */
    var files: map<string, seq<Json>>

    /** The count is the number of buffered records; no file has an empty
        pending list; a write never leaves a full buffer behind. */
    ghost predicate Valid()
      reads this
    {
      && bufferCount == Sum(Lengths(buffer))
      && (forall p :: p in buffer ==> buffer[p] != [])
      && (flushCount >= 1 ==> bufferCount < flushCount)
    }

    /** Everything written to `path` so far, flushed or not, in write order. */
    ghost function Written(path: string): seq<Json>
      reads this
    {
      Records(files, path) + Records(buffer, path)
    }

    /** `JsonlSink(root, flush_interval_sec, flush_count)`, created at clock
        reading `now` over the existing files `disk`. */
    constructor (root: string, flushIntervalSec: real, flushCount: int, now: real, disk: map<string, seq<Json>>)
      ensures Valid()
      ensures this.root == root && this.flushIntervalSec == flushIntervalSec && this.flushCount == flushCount
      ensures buffer == map[] && bufferCount == 0 && lastFlushTime == now && files == disk
    {
      this.root := root;
      this.flushIntervalSec := flushIntervalSec;
      this.flushCount := flushCount;
      buffer := map[];
      bufferCount := 0;
      lastFlushTime := now;
      files := disk;
      assert Lengths(map[]) == map[];
    }

    /** `_flush()` finishing at clock reading `now`: every pending list is
        appended to its file and the buffer starts over; an empty buffer is
        left as it is, clock included. */
    method Flush(now: real)
      requires Valid()
      modifies this
      ensures Valid()
      ensures forall p :: Written(p) == old(Written(p))
      ensures old(buffer) == map[] ==> files == old(files) && lastFlushTime == old(lastFlushTime)
      ensures old(buffer) != map[] ==> lastFlushTime == now
      ensures forall p :: Records(files, p) == Records(old(files), p) + Records(old(buffer), p)
      ensures buffer == map[] && bufferCount == 0
    {
      if buffer == map[] {
        return;
      }
      Drain(now);
    }

    /** `write(event)`: the record goes to the end of its file's pending list;
        `now` is the clock when the thresholds are checked and `flushEnd` the
        clock when a flush it triggers finishes. A date out of range raises
        before anything is buffered. */
    method Write(e: NormalizedEvent, now: real, flushEnd: real) returns (r: Result<bool, PathFault>)
      requires Valid()
      modifies this
      ensures Valid()
      ensures var path := PartitionPath(root, e.channel, e.symbol, e.tsRecvEpochMs);
        && (r.Err? <==> path.Err?)
        && (path.Err? ==> r.error == path.error && buffer == old(buffer) && files == old(files)
                          && bufferCount == old(bufferCount) && lastFlushTime == old(lastFlushTime))
        && (path.Ok? ==> forall p :: Written(p) == old(Written(p)) + (if p == path.value then [EventRecord(e)] else []))
      ensures r.Ok? ==>
        (r.value <==> old(bufferCount) + 1 >= flushCount || now - old(lastFlushTime) >= flushIntervalSec)
      ensures r.Ok? && r.value ==> buffer == map[] && bufferCount == 0 && lastFlushTime == flushEnd
      ensures r.Ok? && !r.value ==> bufferCount == old(bufferCount) + 1 && lastFlushTime == old(lastFlushTime)
                                    && files == old(files)
    {
      var path := PartitionPath(root, e.channel, e.symbol, e.tsRecvEpochMs);
      r := WriteRecord(path, EventRecord(e), now, flushEnd);
    }

    /** `write` once the file and the record are known. */
    method WriteRecord(path: Result<string, PathFault>, rec: Json, now: real, flushEnd: real)
      returns (r: Result<bool, PathFault>)
      requires Valid()
      modifies this
      ensures Valid()
      ensures r.Err? <==> path.Err?
      ensures path.Err? ==> r.error == path.error && buffer == old(buffer) && files == old(files)
                            && bufferCount == old(bufferCount) && lastFlushTime == old(lastFlushTime)
      ensures path.Ok? ==> forall p :: Written(p) == old(Written(p)) + (if p == path.value then [rec] else [])
      ensures r.Ok? ==>
        (r.value <==> old(bufferCount) + 1 >= flushCount || now - old(lastFlushTime) >= flushIntervalSec)
      ensures r.Ok? && r.value ==> buffer == map[] && bufferCount == 0 && lastFlushTime == flushEnd
      ensures r.Ok? && !r.value ==> bufferCount == old(bufferCount) + 1 && lastFlushTime == old(lastFlushTime)
                                    && files == old(files)
    {
      if path.Err? {
        return Err(path.error);
      }
      Buffer(path.value, rec);
      var flush := FlushIfDue(now, flushEnd);
      r := Ok(flush);
    }

    /** The threshold check at the end of `write`: flush when the count has
        reached `flush_count` or `flush_interval_sec` has passed since the
        last flush. */
    method FlushIfDue(now: real, flushEnd: real) returns (flush: bool)
      requires bufferCount == Sum(Lengths(buffer)) && buffer != map[]
      requires forall p :: p in buffer ==> buffer[p] != []
      requires flushCount >= 1 ==> bufferCount <= flushCount
      modifies this
      ensures Valid()
      ensures flush <==> old(bufferCount) >= flushCount || now - old(lastFlushTime) >= flushIntervalSec
      ensures forall p :: Written(p) == old(Written(p))
      ensures flush ==> buffer == map[] && bufferCount == 0 && lastFlushTime == flushEnd
      ensures !flush ==> buffer == old(buffer) && bufferCount == old(bufferCount)
                         && lastFlushTime == old(lastFlushTime) && files == old(files)
    {
      flush := bufferCount >= flushCount || now - lastFlushTime >= flushIntervalSec;
      if flush {
        Drain(flushEnd);
      }
    }

    /** `self.buffer.setdefault(path, []).append(rec)` and the count that goes with it. */
    method Buffer(p: string, rec: Json)
      requires bufferCount == Sum(Lengths(buffer))
      requires forall p :: p in buffer ==> buffer[p] != []
      modifies this`buffer, this`bufferCount
      ensures buffer == old(buffer)[p := Records(old(buffer), p) + [rec]]
      ensures bufferCount == old(bufferCount) + 1
      ensures bufferCount == Sum(Lengths(buffer)) && buffer != map[]
      ensures forall p :: p in buffer ==> buffer[p] != []
      ensures forall q :: Records(buffer, q) == Records(old(buffer), q) + (if q == p then [rec] else [])
    {
      LengthsAppend(buffer, p, rec);
      buffer := buffer[p := Records(buffer, p) + [rec]];
      bufferCount := bufferCount + 1;
    }

    /** The body of `_flush` past its empty-buffer check: append every pending
        list to its file, then clear the buffer and restart the clock. Reached
        from `write` with the record just added, where the count may already
        have reached the threshold. */
    method Drain(now: real)
      requires bufferCount == Sum(Lengths(buffer)) && buffer != map[]
      requires forall p :: p in buffer ==> buffer[p] != []
      modifies this
      ensures Valid()
      ensures forall p :: Written(p) == old(Written(p))
      ensures forall p :: Records(files, p) == Records(old(files), p) + Records(old(buffer), p)
      ensures buffer == map[] && bufferCount == 0 && lastFlushTime == now
    {
      files := AppendAll(files, buffer);
      buffer := map[];
      bufferCount := 0;
      lastFlushTime := now;
      assert Lengths(map[]) == map[];
    }

    /** `close()`: flush whatever is pending. */
    method Close(now: real)
      requires Valid()
      modifies this
      ensures Valid()
      ensures forall p :: Written(p) == old(Written(p))
      ensures forall p :: Records(files, p) == Records(old(files), p) + Records(old(buffer), p)
      ensures buffer == map[] && bufferCount == 0
    {
      Flush(now);
    }
  }

  /** The loop of `_flush`: each pending list is appended to its file, in
      whichever order the buffer yields the files. */
  method AppendAll(files: map<string, seq<Json>>, buffer: map<string, seq<Json>>)
    returns (fs: map<string, seq<Json>>)
    ensures forall p :: Records(fs, p) == Records(files, p) + Records(buffer, p)
  {
    var pending := buffer.Keys;
    fs := files;
    while pending != {}
      invariant pending <= buffer.Keys
      invariant forall p :: p in pending ==> Records(fs, p) == Records(files, p)
      invariant forall p :: p !in pending ==> Records(fs, p) == Records(files, p) + Records(buffer, p)
      decreases |pending|
    {
      var p :| p in pending;
      fs := fs[p := Records(fs, p) + buffer[p]];
      pending := pending - {p};
    }
  }

  lemma LengthsAppend(m: map<string, seq<Json>>, p: string, rec: Json)
    ensures Sum(Lengths(m[p := Records(m, p) + [rec]])) == Sum(Lengths(m)) + 1
  {
    var l := Lengths(m);
    assert Lengths(m[p := Records(m, p) + [rec]]) == l[p := Common.At(l, p) + 1];
    SumAdd(l, p, 1);
  }
}
