# OKX market-data pipeline: a Dafny model

This project models the sequential core of a latency-instrumented market-data
pipeline for the OKX v5 public WebSocket API, and proves properties of that model.
The pipeline has five parts:

- **Stream** (`src/okx_ws.py`, module `OkxWs`). It subscribes to every symbol ×
  channel pair. It passes on decoded frames that are JSON objects. When the
  connection is lost it reconnects with exponential backoff and jitter.
  - The websocket, the decoder, the clocks and the stop event are the environment.
    What they do arrives as a sequence of `Input`s.
  - `OkxStream` is the reconnect loop as a method. It is proved equal to the
    state-machine function `Run`.
- **Normalizer** (`src/normalizer.py`, module `Normalizer`). It turns one decoded
  frame into zero or more canonical events.
  - The decoded frame is a small JSON value (`Common.Json`).
  - Python's `float()` and `int()` are abstract partial functions (`Parsers`).
  - Each monotonic-clock reading taken while events are built is an input (`mono`).
  - `NormalizeOkx`, with its loops over levels and trades, is proved equal to the
    specification function `Normalized`. The filtering, per-level, per-trade and
    clock-ordering behaviour is proved about `Normalized`.
- **Rolling aggregator** (`src/metrics/rolling.py`, module `Rolling`). It is a
  class with the same fields as the source:
  - three global latency series;
  - per-(symbol, channel) latency and staleness series;
  - the last exchange timestamp per key;
  - per-symbol message counts and the zero-latency counters;
  - the time of the last print.

  `Update` appends and evicts, and keeps the class invariant `Valid()`. Around it the
  module defines the percentile selection, the print decision and the export rows.
- **JSONL sink** (`src/sinks/jsonl.py`, module `Jsonl`). Each event is filed at
  `root/okx/<channel>/<YYYY-MM-DD>/<symbol>.jsonl`, where the date is the UTC day
  of the receipt time.
  - The date comes from a proleptic-Gregorian day-number conversion.
  - The record written for an event is proved to read back as the event.
  - `JsonlSink` is a class holding the per-file buffer, the count and the flush
    clock. The file system is its field `files`, a map from path to the records
    appended there.
- **Application** (`src/app.py`, module `App`). It covers:
  - parsing the comma-separated `--symbols` and `--channels` lists;
  - the ingestion loop, which hands each frame to the normalizer and each event to
    the metrics and then to every sink;
  - the steps of the shutdown sequence.

  Sinks are abstract: whether a write or a close raises is an input. What the loops
  do is recorded as a trace of actions.

`common.dfy` holds the shared `Option`/`Result` wrappers, the JSON value with
Python's truthiness and `dict.get`, and sums over finite maps.

Four behaviours of the code are easy to miss; the model follows the code in each:

- A trade whose `ts` parses but whose `px`, `sz` or `side` is missing or
  malformed raises out of `normalize_okx`. The exception ends the ingestion task
  (`src/normalizer.py:170-175`, `src/app.py:99-101`), not just that trade.
- `_flush` writes every file's pending records at once. It does not flush one
  partition at a time.
- When the ingestion task fails it sets stop and the shutdown runs normally.
  Nothing in `main_loop` turns this into a non-zero exit status.
- The backoff expression can itself raise (see Findings). In Python the exception
  escapes the stream and ends ingestion. The model's reconnect loop uses the intended,
  capped delay instead (see "Left out").

## Model

| member | source | states |
|---|---|---|
| Common.SumAdd | src/metrics/rolling.py:97 | raising one per-symbol count by d raises the total of all counts by d |
| Normalizer.NormalizeOkx | src/normalizer.py:51-202 | the imperative normalizer returns exactly the events, or the fault, that the specification `Normalized` gives for the frame; with a truthy non-string `instId` it raises the branch's faults and drops the events |
| Normalizer.ParseLevels | src/normalizer.py:100-121 | the level loop with `continue` keeps exactly the well-formed levels, converted, in input order (`KeptLevels`) |
| Normalizer.ParseSide | src/normalizer.py:94-95 | `d0.get(side) or []`: a falsy side gives no levels, a list is filtered level by level, a string or object gives none, and a truthy number raises |
| Normalizer.BuildBookEvent | src/normalizer.py:82-159 | the books5 branch returns what `BookEvents` specifies: a non-object element raises, an unparsable ts gives no event, the clock-order check raises |
| Normalizer.BuildTradeEvents | src/normalizer.py:161-200 | the trades loop returns what `TradeEvents` specifies, with the i-th event built from the i-th clock reading |
| Normalizer.TradeFaultPersists | src/normalizer.py:170-175 | once a prefix of a trades batch raises, the whole batch raises the same fault |
| Normalizer.FilteredFramesYieldNothing | src/normalizer.py:64-78 | control frames, frames without a truthy channel or a non-empty data list, frames without a truthy instId, and unknown channels yield no events |
| Normalizer.KeptLevelsAppend | src/normalizer.py:100-109 | filtering a concatenation of raw levels filters each part |
| Normalizer.LevelFilterIsPointwise | src/normalizer.py:100-109 | a level is kept or dropped on its own: the levels before and after it are kept exactly as without it |
| Normalizer.KeptLevelsAreConverted | src/normalizer.py:100-109 | at most one kept level per raw level; all well-formed gives all converted in order; none well-formed gives none |
| Normalizer.BookEventShape | src/normalizer.py:84-134 | books5 gives at most one event, built from data[0]; its best bid/ask are the first kept prices (0.0 for an empty side) and n is 5; an unparsable ts gives no event |
| Normalizer.MissingTimestampDefaults | src/normalizer.py:87 | a missing `ts` is parsed as the string "0" |
| Normalizer.TradeEventsMatchElements | src/normalizer.py:163-168 | a successful trades batch has exactly one event per element with a parsable ts, in array order, the i-th with clock reading i |
| Normalizer.TradeFaultsAreFatal | src/normalizer.py:170-175 | an element with a parsable ts and an unreadable px, sz or side makes the whole batch raise, whatever the other elements hold |
| Normalizer.TradeStepCanonical | src/normalizer.py:177-200 | every trade event carries "okx", the instId, channel "trades", type "trade", the receipt stamps unchanged, and recv ≤ decoded ≤ proc |
| Normalizer.NormalizedEventsAreCanonical | src/normalizer.py:136-200 | every returned event is canonical in this sense; a frame whose decode stamp precedes its receipt stamp yields no event |
| Normalizer.BookFaultsIgnoreSymbol | src/normalizer.py:84-159 | whether the books5 branch raises, the fault, and the number of events do not depend on the symbol |
| Normalizer.TradeFaultsIgnoreSymbol | src/normalizer.py:161-200 | whether the trades loop raises, the fault, and the number of events do not depend on the symbol |
| Normalizer.NonStringInstIdFaults | src/normalizer.py:76-200 | with a truthy non-string `instId`, the frame raises exactly when and as the same frame would under any string symbol (a non-object books5 element, a good-ts trade with unreadable px/sz/side, the clock check), and otherwise yields nothing |
| Normalizer.BookFrameExample | src/normalizer.py:82-159 | a worked BTC-USDT books5 frame gives the one expected event, field by field |
| Normalizer.MalformedLevelExample | src/normalizer.py:103-109 | a level whose price does not parse is dropped and the next valid level is kept |
| Normalizer.TradeStepKept | src/normalizer.py:163-200 | a trade element with an integer ts becomes one event with its price, size, side and missing trade id |
| Normalizer.TradeStepSkipped | src/normalizer.py:164-168 | a trade element whose ts does not parse is skipped |
| Normalizer.TradeBatchEvents | src/normalizer.py:163-200 | the loop over a worked batch of four trades, one with a bad ts, yields the three expected events with clock readings 0, 1, 2 |
| Normalizer.TradeBatchExample | src/normalizer.py:161-200 | the worked trades frame yields three events with the right payloads and exchange timestamps |
| Rolling.EvictDropsOldPrefix | src/metrics/rolling.py:66-73 | eviction removes the longest prefix of samples older than the cutoff and nothing else; what remains is an unchanged suffix |
| Rolling.EvictSorted | src/metrics/rolling.py:67-73 | on a time-ordered series eviction keeps exactly the samples at or after the cutoff, still ordered |
| Rolling.AppendedSurvives | src/metrics/rolling.py:62-73 | the sample just appended at t survives eviction at t − window exactly when the window is not negative |
| Rolling.EvictFront | src/metrics/rolling.py:68-69 | the `popleft` loop leaves exactly `Evict(s, cutoff)` |
| Rolling.AppendAndEvict | src/metrics/rolling.py:62-73 | append then evict gives `Evict(s + [x], cutoff)`, which stays time-ordered, has no sample after x.t and none before the cutoff |
| Rolling.AddSample | src/metrics/rolling.py:79-83 | appending to a key's series creates that key if needed: the keys become the old keys plus this one |
| Rolling.AddSampleAt | src/metrics/rolling.py:79-83 | computes `AddSample` and keeps every series of the table time-ordered and not later than the sample |
| Rolling.TrackTables | src/metrics/rolling.py:76-94 | the event's latency series always grows; its staleness series grows by ts − last only when a last timestamp is known; the timestamp is then remembered; other keys are untouched |
| Rolling.Insert | src/metrics/rolling.py:104 | inserting into an ascending list keeps it ascending and adds exactly that element |
| Rolling.SortInts | src/metrics/rolling.py:104 | `sorted` gives an ascending permutation of the values |
| Rolling.RankIndex | src/metrics/rolling.py:108 | the nearest-rank index is floor(p·(n−1)/100) and lies within the list |
| Rolling.RankIndexMonotone | src/metrics/rolling.py:108 | a higher percentile never gives a lower index |
| Rolling.Percentiles | src/metrics/rolling.py:99-111 | no values give (0, 0, 0); otherwise each result is one of the values and lies between their minimum and maximum |
| Rolling.PercentileIsValue | src/metrics/rolling.py:107-109 | a percentile is one of the values |
| Rolling.PercentilesOrdered | src/metrics/rolling.py:107-111 | p ≤ q implies percentile p ≤ percentile q, so p50 ≤ p95 ≤ p99 |
| Rolling.ConstantPercentiles | src/metrics/rolling.py:99-111 | identical samples give that value three times |
| Rolling.MinOf | src/metrics/rolling.py:181 | the minimum is a value and no value is below it |
| Rolling.MaxOf | src/metrics/rolling.py:182 | the maximum is a value and no value is above it |
| Rolling.SquaredDeviations | src/metrics/rolling.py:180 | the sum of squared deviations is not negative |
| Rolling.SumBounds | src/metrics/rolling.py:179 | values within [lo, hi] sum to between n·lo and n·hi |
| Rolling.Mean | src/metrics/rolling.py:179 | mean times count is the sum |
| Rolling.MeanBetween | src/metrics/rolling.py:179 | the mean lies between any bounds of the values |
| Rolling.SampleVariance | src/metrics/rolling.py:180 | the variance with denominator n − 1 is not negative and is 0 for at most one sample |
| Rolling.SeriesStats | src/metrics/rolling.py:175-196 | count is the series length; an empty series gives all zeros; otherwise min and max are the extreme values, min ≤ mean ≤ max, and the variance is 0 for one sample |
| Rolling.KeyOrder | src/metrics/rolling.py:152 | the (symbol, channel) tuple order is a strict total order |
| Rolling.InsertKey | src/metrics/rolling.py:152 | inserting a new key into a strictly ascending list keeps it strictly ascending and adds exactly that key |
| Rolling.SortKeys | src/metrics/rolling.py:152 | `sorted(set(...))` lists every key of the set exactly once, strictly ascending |
| Rolling.AscendingListingUnique | src/metrics/rolling.py:152 | a set of keys has only one strictly ascending listing, so the export order is determined |
| Rolling.ZeroRate | src/metrics/rolling.py:136 | zero/max(1, total)·100 is not negative, at most 100 when zero ≤ total, and 0 exactly when there were no zero latencies |
| Rolling.Summarize | src/metrics/rolling.py:121-145 | a stage's section is present exactly when it has at least 20 samples; nothing is printed when no section is present; the message counts are reported as kept |
| Rolling.SummarySectionsBounded | src/metrics/rolling.py:130-142 | every reported triple is ordered and its ends are samples of the stage |
| Rolling.TruncToZero | src/metrics/rolling.py:26 | `int(x)` truncates toward zero on both signs |
| Rolling.RollingMetrics.constructor | src/metrics/rolling.py:20-45 | window in ms is int(seconds·1000); all series, tables and counters start empty or zero; the invariant holds |
| Rolling.RollingMetrics.Update | src/metrics/rolling.py:47-97 | keeps the invariant (counters ≤ total, counts sum to total, series ordered, latency keys = last-timestamp keys ⊇ staleness keys); states the new counters, series and tables exactly |
| Rolling.RollingMetrics.CountEvent | src/metrics/rolling.py:56-60 | total +1, each zero counter +1 exactly when its latency is 0, the symbol's count +1; zero counters ≤ total and the counts sum to the total |
| Rolling.RollingMetrics.AddLatencies | src/metrics/rolling.py:62-73 | each global series becomes `Evict(old + [new sample], t − window)`: no sample older than the cutoff remains |
| Rolling.RollingMetrics.TrackKey | src/metrics/rolling.py:75-94 | the per-key tables change as `TrackedTables` states and keep the key-set relations |
| Rolling.RollingMetrics.PrintStats | src/metrics/rolling.py:113-145 | within a second and unforced: nothing is printed and the print time is kept; otherwise the print time is now and the line is `Summarize` of the current state |
| Rolling.RollingMetrics.ExportRows | src/metrics/rolling.py:147-212 | one row per key in either per-key table and no other, strictly ascending by key, each row being `ExportRow` of its key |
| Rolling.ExportRow | src/metrics/rolling.py:172-212 | a row carries the export time, the key, and counts equal to the lengths of the key's series (0 when absent) |
| Jsonl.MonthDayValid | src/sinks/jsonl.py:22 | day r of a year is a valid month and day whose offset in the year is r |
| Jsonl.DateOfOrdinal | src/sinks/jsonl.py:22 | every day number names a valid date whose day number is that number |
| Jsonl.EpochDate | src/sinks/jsonl.py:22 | timestamp 0 is 1970-01-01 and −1 ms is 1969-12-31 |
| Jsonl.SameUtcDate | src/sinks/jsonl.py:22 | two timestamps have the same UTC date exactly when they fall in the same whole day since the epoch |
| Jsonl.DateOfInjective | src/sinks/jsonl.py:22 | distinct day numbers name distinct dates |
| Jsonl.Digit | src/sinks/jsonl.py:27 | a digit character spells its number |
| Jsonl.Pad2 | src/sinks/jsonl.py:27 | two zero-padded digits spell the number |
| Jsonl.Pad4 | src/sinks/jsonl.py:27 | four zero-padded digits spell the number |
| Jsonl.DigitsValueAppend2 | src/sinks/jsonl.py:27 | appending two digits shifts the value two places |
| Jsonl.DateText | src/sinks/jsonl.py:27 | `%Y-%m-%d` is ten characters |
| Jsonl.DateTextRoundTrip | src/sinks/jsonl.py:27 | the printed date reads back as the same date |
| Jsonl.PartitionPath | src/sinks/jsonl.py:20-29 | fails exactly when the UTC year is outside 1..9999; otherwise gives the day path of the UTC date of the timestamp |
| Jsonl.DatePart | src/sinks/jsonl.py:23-29 | joining the date and then a relative name puts the whole date right after the directory prefix |
| Jsonl.DayPathInjective | src/sinks/jsonl.py:23-29 | different dates give different files, unless the symbol is an absolute path |
| Jsonl.SamePathIffSameDay | src/sinks/jsonl.py:20-29 | events of one channel and symbol share a file exactly when they fall on the same UTC day |
| Jsonl.PathLayout | src/sinks/jsonl.py:21-29 | with plain components the path is root/okx/channel/YYYY-MM-DD/symbol.jsonl |
| Jsonl.LevelsRoundTrip | src/sinks/jsonl.py:53-60 | the level lists read back as the levels |
| Jsonl.PayloadRoundTrip | src/sinks/jsonl.py:48-68 | a book or trade payload record reads back as the payload |
| Jsonl.EventRecordKeyed | src/sinks/jsonl.py:36-46 | an event record has the nine base fields in declaration order, then the payload |
| Jsonl.RecordRoundTrip | src/sinks/jsonl.py:32-70 | reading the record written for an event gives that event back |
| Jsonl.LengthsAppend | src/sinks/jsonl.py:114-115 | appending one record to a file's list raises the total number of buffered records by one |
| Jsonl.AppendAll | src/sinks/jsonl.py:132-155 | each file ends with its old records followed by its pending records, whatever order the files are visited in |
| Jsonl.JsonlSink.constructor | src/sinks/jsonl.py:76-98 | an empty buffer, count 0, flush clock at creation time, the existing files unchanged |
| Jsonl.JsonlSink.Buffer | src/sinks/jsonl.py:114-115 | the record goes at the end of its file's pending list and the count rises by one, staying the number of pending records |
| Jsonl.JsonlSink.FlushIfDue | src/sinks/jsonl.py:117-125 | flushes exactly when the count has reached flush_count or flush_interval_sec has passed; otherwise nothing changes |
| Jsonl.JsonlSink.WriteRecord | src/sinks/jsonl.py:110-125 | a path error changes nothing; otherwise everything written to the record's path gains this record at the end and other paths are unchanged; the flush happens exactly under the thresholds |
| Jsonl.JsonlSink.Write | src/sinks/jsonl.py:100-125 | as WriteRecord, for the event's partition path and record; the count never stays at or above flush_count ≥ 1 |
| Jsonl.JsonlSink.Drain | src/sinks/jsonl.py:132-160 | every file gains its pending records in order; the buffer is emptied, the count zeroed and the flush clock reset |
| Jsonl.JsonlSink.Flush | src/sinks/jsonl.py:127-160 | an empty buffer is a no-op, clock included; otherwise as Drain; nothing written is lost or reordered |
| Jsonl.JsonlSink.Close | src/sinks/jsonl.py:162-164 | afterwards the buffer is empty and every pending record is in its file |
| OkxWs.SubArgsLength | src/okx_ws.py:50 | there are \|symbols\|·\|channels\| arguments |
| OkxWs.SubArgsIndex | src/okx_ws.py:50 | argument i·\|channels\|+j is {channel: channels[j], instId: symbols[i]} |
| OkxWs.BaseDelay | src/okx_ws.py:114 | the intended base delay lies between 0.25 and 30 |
| OkxWs.BaseDelayMonotone | src/okx_ws.py:114 | the base delay never shrinks as the attempt number grows |
| OkxWs.BaseDelaySchedule | src/okx_ws.py:114 | it is 0.25·2^attempt up to attempt 6 and 30 from attempt 7 on |
| OkxWs.BackoffOverflow | src/okx_ws.py:114 | the expression as Python evaluates it agrees with the intended one below attempt 1024 and raises from attempt 1024 on |
| OkxWs.Jitter | src/okx_ws.py:115 | `time.time() % 1.0` lies in [0, 1) and is the clock minus its floor |
| OkxWs.Delay | src/okx_ws.py:115 | the jittered delay lies in [0.8·base, 1.2·base) |
| OkxWs.OkxStream | src/okx_ws.py:54-121 | the imperative reconnect loop produces exactly the outputs and final state of the specification `Run` |
| OkxWs.SubscribeResetsAttempt | src/okx_ws.py:66-67 | a connection sends the subscription once and resets the attempt counter to 0 |
| OkxWs.TransportFailureBacksOff | src/okx_ws.py:110-117 | a transport failure with stop unset sleeps a jittered base delay of the current attempt, below 36 s, then counts the attempt; below attempt 1024 that sleep is the one the written expression gives, and from 1024 the written expression raises |
| OkxWs.OtherFailureWaitsOneSecond | src/okx_ws.py:118-121 | any other exception sleeps 1 s and leaves the counter alone |
| OkxWs.StopOnFailureExits | src/okx_ws.py:110-121 | with stop set, either except clause ends the loop without sleeping |
| OkxWs.FrameHandling | src/okx_ws.py:70-108 | a frame after stop ends the loop unseen; otherwise it is yielded exactly when it carries an object, and a skipped frame keeps the connection |
| OkxWs.NothingAfterStop | src/okx_ws.py:55-72 | once stop is set it stays set and only subscription sends can follow: no frame and no sleep |
| OkxWs.StopEndsOutput | src/okx_ws.py:55-72 | whatever came before, everything output after stop is set is a subscription send |
| OkxWs.FinishedStays | src/okx_ws.py:55 | a returned generator stays returned and outputs nothing |
| App.Split | src/app.py:203 | `split(",")` gives at least one piece |
| App.SplitJoin | src/app.py:203 | joining the pieces with commas gives the argument back, and no piece holds a comma |
| App.SplitAppend | src/app.py:203 | a comma splits the text into the pieces before it and the pieces after it |
| App.SplitCommaFree | src/app.py:203 | text without commas is a single piece |
| App.JoinSplit | src/app.py:203 | joining comma-free pieces and splitting again gives the pieces back |
| App.StripLeftShape | src/app.py:203 | `lstrip` drops a run of leading whitespace and stops at the first other character |
| App.StripRightShape | src/app.py:203 | `rstrip` drops a run of trailing whitespace and stops at the last other character |
| App.StripShape | src/app.py:203 | `strip` leaves no whitespace at either end, gives empty exactly for all-whitespace text, and adds no comma |
| App.StripEnds | src/app.py:203 | a stripped text has no whitespace at either end |
| App.StripEmpty | src/app.py:203 | a stripped text is empty exactly when the original is all whitespace |
| App.StripCommaFree | src/app.py:203 | stripping adds no comma |
| App.KeptAppend | src/app.py:203 | keeping the stripped non-empty pieces of a concatenation is keeping those of each part |
| App.ParseListAppend | src/app.py:203 | the list keeps the argument's order: entries before a comma come before those after it |
| App.KeptClean | src/app.py:203 | every kept piece is non-empty, has no whitespace at either end and holds no comma |
| App.ParseListClean | src/app.py:203 | every entry of a parsed list is non-empty, stripped and comma-free |
| App.ParseListSingle | src/app.py:203 | an argument without commas gives its stripped text, or nothing when that is blank |
| App.ParseListEmpty | src/app.py:203-206 | the list is empty exactly when the argument holds only commas and whitespace |
| App.Arguments | src/app.py:203-211 | starts exactly when both lists are non-empty, with those lists; otherwise exits with status 1, reporting missing symbols first |
| App.Yields | src/app.py:82 | every frame ingestion receives is a yield output of the stream, and a run without yields gives no frame |
| App.YieldsAppend | src/app.py:82 | the frames of two stretches of stream output are the first stretch's frames followed by the second's, so order is kept |
| App.NoFrameAfterStop | src/app.py:82 | once stop is set, ingestion receives no further frame and its trace is the one it had at that point |
| App.WritesShape | src/app.py:94-98 | sink j gets write attempt j and the attempt records that sink's outcome |
| App.WriteAll | src/app.py:94-98 | the sink loop makes exactly those attempts, one per sink, in list order |
| App.DeliverAll | src/app.py:89-98 | the event loop's actions are `Deliver`: per event, one metrics update then the sinks' writes |
| App.FrameActions | src/app.py:89-98 | a frame's actions are `Deliver` and never end in a stop |
| App.ProcessStream | src/app.py:80-101 | the imperative ingestion loop's trace is `Process`; it reports a stop exactly when the trace ends in one |
| App.IngestOkx | src/app.py:82-84 | the same with `normalize_okx` as the normalizer |
| App.ProcessFirst | src/app.py:82-101 | a failing first frame gives just the stop; otherwise its events' actions come first, then the rest of the frames |
| App.DeliverEndsWithWrite | src/app.py:89-98 | a frame with events ends with a write or an update, never a stop |
| App.DeliverLength | src/app.py:89-98 | each event gives exactly one update and one attempt per sink |
| App.DeliverAppend | src/app.py:89-98 | consecutive runs of events act in turn, the numbering continuing |
| App.DeliverBlock | src/app.py:89-98 | event k's update and writes come after those of the earlier events and before those of the later ones |
| App.DeliverAttempts | src/app.py:94-98 | which writes fail does not change the updates and attempts of a frame |
| App.FailuresAreIsolated | src/app.py:94-98 | which writes fail changes nothing but the recorded outcomes over the whole stream |
| App.EmptyFrameDoesNothing | src/app.py:84-86 | a frame that normalizes to no events adds no update and no write |
| App.FaultStopsIngestion | src/app.py:99-101 | the first frame the normalizer fails on ends ingestion with a stop; later frames are never looked at |
| App.Shutdown | src/app.py:132-146 | every sink is closed in list order whatever earlier closes did, then exactly one forced print, then one export when a path is set |
| App.FinalReport | src/app.py:140-146 | the forced print always reports the current summary; the export runs exactly when a path is set and covers every key in order |

## Left out

- Asynchronous machinery: tasks, `gather`, cancellation, signal handlers and the Windows branches of `main_loop`. The periodic printer and the periodic CSV exporter are also asynchronous. These are concurrency; only the order of the `finally` steps is modelled.
- `argparse`, logging and the final exit path of `main`. `Arguments` models only the two list checks.
- The websocket transport (`connect`, ping, timeouts, queue size) and the msgspec decoder are inputs (`OkxWs.Input`, `OkxWs.Decoding`). The subscription is built as a JSON value; its text encoding is not modelled.
- The debug prints and the per-call debug counter in `src/okx_ws.py` only print.
- The `_DEBUG` constant is always true, so its check is modelled as always on.
- Clocks are inputs. The wall clock and monotonic clock readings come in as parameters, and so do the event-loop time and the export time stamp. `src/time_helpers.py` is not part of this model.
- `src/sinks/stdout.py` and `src/sinks/base.py` are not part of this model. `App` treats sinks only through their write and close outcomes.
- Floating point: prices, sizes and statistics are exact `real`s and latencies are exact integers.
  - The percentile index is floor(p·(n−1)/100).
  - NaN, infinity and rounding are not modelled.
  - The `:.1f`/`:.3f` formatting and the division by 1000 for display are not modelled.
- Rolling.SeriesStats: reports the sample variance, not its square root, because the CSV's `std` needs `sqrt`, which Dafny's reals lack. The `std = 0 for n ≤ 1` property is stated on the variance.
- Rolling.Summarize: keeps the message counts as a map, not the `"sym:cnt"` text sorted by symbol.
- Rolling.RollingMetrics.ExportRows: yields the data rows only. The header row, `os.makedirs`, the CSV text and an error from opening the file are I/O.
- The `float()`/`int()` conversions of the normalizer are abstract (`Parsers`). Which strings they accept is a parameter, not Python's grammar.
- Normalizer.NormalizeOkx: with a truthy `instId` that is not a string (a number, say), the model raises every fault Python raises for that frame (`AttributeError` at `src/normalizer.py:87`, `KeyError`/`ValueError` at `src/normalizer.py:171-173`, the clock check), but returns no events where Python would build events whose symbol is that value, because the event type has string symbols only.
- Jsonl: `_flush` visits files in the buffer's insertion order. The model lets the loop visit them in any order and proves the result the same, because each file receives only its own records.
- Jsonl: file-system effects are a map from path to records. Directory creation, the choice between aiofiles and a thread, and partial writes or I/O errors during a flush are not modelled.
- Jsonl: the JSON-lines text (`json.dumps` with compact separators, no ASCII escaping) is not modelled. A record is the JSON value written on its line.
- Jsonl.PartitionPath: `%Y` is modelled as four zero-padded digits. Years outside 1..9999, which `datetime` refuses, are the error case.
- App: the metrics update inside the ingestion loop is an action in the trace. `Rolling.RollingMetrics.Update` is what that action does; the loop and the class are not composed in one method.
- OkxWs.OkxStream: `Run` and the loop compute the reconnect delay with the corrected `BaseDelay`. From attempt 1024 on, `src/okx_ws.py:114` as written raises OverflowError out of the generator, which the model does not produce; `BaseDelayAsWritten` and `BackoffOverflow` state that case on its own.
- OkxWs.TransportFailureBacksOff: from attempt 1024 on it states the sleep of the corrected loop, not the OverflowError the written expression raises; its own ensures says the written expression raises there.
- App: only a normalizer fault ends the ingestion loop. In the model `metrics.update` cannot raise, and the stream raises only through the backoff overflow in Findings, which `ProcessStream` does not carry.

## Findings

| source | as written | input that shows it | evidently intended | confidence | as-written member | corrected member |
|---|---|---|---|---|---|---|
| src/okx_ws.py:114 | `0.25 * (2 ** attempt)` multiplies a float by an exact integer, which Python must convert to a float; the product is computed before `min` caps it | attempt = 1024, reached after 1024 transport failures in a row with no successful send; `2 ** 1024` does not fit a double and raises OverflowError inside the except clause, so it escapes the stream and ends ingestion | the base delay stays capped at 30 s for every attempt, so reconnects go on for ever | not executed | OkxWs.BackoffOverflow (about OkxWs.BaseDelayAsWritten) | OkxWs.BaseDelay |
