/** Normalisation of one decoded OKX v5 public-channel frame into canonical
    events (src/normalizer.py). The frame arrives as a decoded JSON object;
    the conversions Python's float() and int() perform are left abstract, and
    each reading of the monotonic clock made while events are built is an
    input. */
module Normalizer {
  import opened Common

  datatype BookLevel = BookLevel(price: real, size: real, count: int)

  datatype BookPayload = BookPayload(n: int, bestBid: real, bestAsk: real, bids: seq<BookLevel>, asks: seq<BookLevel>)

  /** `side` and `tradeId` are passed through as decoded; JNull stands for a missing trade id. */
  datatype TradePayload = TradePayload(price: real, size: real, side: Json, tradeId: Json)

  datatype Payload = Book(book: BookPayload) | Trade(trade: TradePayload)

  datatype NormalizedEvent = NormalizedEvent(
    exchange: string,
    symbol: string,
    channel: string,
    eventType: string,
    tsExchangeMs: int,
    tsRecvEpochMs: int,
    tsRecvMonoNs: int,
    tsDecodedMonoNs: int,
    tsProcMonoNs: int,
    payload: Payload)

  /** The receipt stamps the stream attaches to a frame: wall-clock ms at
      receipt, monotonic ns at receipt and monotonic ns after decoding. */
  datatype Stamps = Stamps(recvEpochMs: int, recvMonoNs: int, decodedMonoNs: int)

  /** Python's float() and int() applied to a decoded value; None stands for
      the ValueError or TypeError they raise. */
  datatype Parsers = Parsers(toFloat: Json -> Option<real>, toInt: Json -> Option<int>)

  /** Why a call raised instead of returning a list. */
  datatype Fault =
    | NotAnObject              // `.get` on a value that is not a dict
    | NotIterable              // iterating over a truthy number or boolean
    | MissingKey(key: string)  // `d[key]` on an absent key
    | NotANumber(key: string)  // float() refused the value under `key`
    | ClockOrder               // the always-on timestamp ordering check

  const BookChannel := "books5"
  const TradeChannel := "trades"
  const BookDepth := 5

  // ---------------------------------------------------------------------
  // Frame-level filtering
  // ---------------------------------------------------------------------

  /** Subscription acknowledgements, unsubscribe confirmations and errors. */
  predicate IsControl(msg: seq<(string, Json)>)
  {
    var ev := Get(msg, "event");
    ev == Some(JStr("subscribe")) || ev == Some(JStr("unsubscribe")) || ev == Some(JStr("error"))
  }

  /** `msg.get("arg") or {}`, whose `.get` fails unless it is a dict. */
  function ArgMembers(msg: seq<(string, Json)>): Result<seq<(string, Json)>, Fault>
  {
    var a := Get(msg, "arg");
    if !TruthyOpt(a) then Ok([])
    else if a.value.JObj? then Ok(a.value.members)
    else Err(NotAnObject)
  }

  /** The frame carries a truthy channel and a non-empty data list. */
  predicate HasChannelAndData(arg: seq<(string, Json)>, msg: seq<(string, Json)>)
  {
    var data := Get(msg, "data");
    TruthyOpt(Get(arg, "channel")) && data.Some? && data.value.JArr? && |data.value.items| > 0
  }

  // ---------------------------------------------------------------------
  // Book levels
  // ---------------------------------------------------------------------

  /** A raw level survives when it is a list of at least four entries whose
      price and size convert with float() and whose order count (entry 3)
      converts with int(). */
  predicate LevelOk(level: Json, p: Parsers)
  {
    && level.JArr?
    && |level.items| >= 4
    && p.toFloat(level.items[0]).Some?
    && p.toFloat(level.items[1]).Some?
    && p.toInt(level.items[3]).Some?
  }

  function ToLevel(level: Json, p: Parsers): BookLevel
    requires LevelOk(level, p)
  {
    BookLevel(p.toFloat(level.items[0]).value, p.toFloat(level.items[1]).value, p.toInt(level.items[3]).value)
  }

  /** The levels kept from a raw list, in input order. */
  function KeptLevels(raw: seq<Json>, p: Parsers): seq<BookLevel>
  {
    if raw == [] then []
    else
      var last := raw[|raw| - 1];
      KeptLevels(raw[..|raw| - 1], p) + (if LevelOk(last, p) then [ToLevel(last, p)] else [])
  }

  /** One side of the book from `d0.get(side) or []`: a list is filtered level
      by level; a string or an object iterates over characters or keys, none
      of which is a list; a truthy number or boolean cannot be iterated. */
  function BookSide(raw: Option<Json>, p: Parsers): Result<seq<BookLevel>, Fault>
  {
    if !TruthyOpt(raw) then Ok([])
    else
      match raw.value
      case JArr(items) => Ok(KeptLevels(items, p))
      case JStr(_) => Ok([])
      case JObj(_) => Ok([])
      case _ => Err(NotIterable)
  }

  function BestPrice(levels: seq<BookLevel>): real
  {
    if levels == [] then 0.0 else levels[0].price
  }

  /** The exchange timestamp of a data element (`int(d.get("ts", "0"))`). */
  function ExchangeTs(members: seq<(string, Json)>, p: Parsers): Option<int>
  {
    p.toInt(GetOr(members, "ts", JStr("0")))
  }

  function MakeEvent(symbol: string, channel: string, eventType: string, tsExchangeMs: int,
                     st: Stamps, procNs: int, payload: Payload): NormalizedEvent
  {
    NormalizedEvent("okx", symbol, channel, eventType, tsExchangeMs,
                    st.recvEpochMs, st.recvMonoNs, st.decodedMonoNs, procNs, payload)
  }

  /** The ordering check made before each event is built. */
  predicate ClockOrdered(st: Stamps, procNs: int)
  {
    st.recvMonoNs <= st.decodedMonoNs && st.decodedMonoNs <= procNs
  }

  /** The books5 branch: at most one event, built from the first data element. */
  function BookEvents(symbol: string, d0: Json, st: Stamps, p: Parsers, mono: nat -> int): Result<seq<NormalizedEvent>, Fault>
  {
    if !d0.JObj? then Err(NotAnObject)
    else
      match ExchangeTs(d0.members, p)
      case None => Ok([])
      case Some(ts) =>
        match BookSide(Get(d0.members, "bids"), p)
        case Err(f) => Err(f)
        case Ok(bids) =>
          match BookSide(Get(d0.members, "asks"), p)
          case Err(f) => Err(f)
          case Ok(asks) =>
            var payload := BookPayload(BookDepth, BestPrice(bids), BestPrice(asks), bids, asks);
            if !ClockOrdered(st, mono(0)) then Err(ClockOrder)
            else Ok([MakeEvent(symbol, BookChannel, "book_topn", ts, st, mono(0), Book(payload))])
  }

  // ---------------------------------------------------------------------
  // Trades
  // ---------------------------------------------------------------------

  /** `float(d[key])`: a missing key and an unparsable value both raise. */
  function Number(members: seq<(string, Json)>, key: string, p: Parsers): Result<real, Fault>
  {
    match Get(members, key)
    case None => Err(MissingKey(key))
    case Some(v) => if p.toFloat(v).Some? then Ok(p.toFloat(v).value) else Err(NotANumber(key))
  }

  /** One element of a trades frame, with `k` clock readings already taken:
      None when its timestamp does not parse (the element is skipped). */
  function TradeStep(symbol: string, d: Json, k: nat, st: Stamps, p: Parsers, mono: nat -> int): Result<Option<NormalizedEvent>, Fault>
  {
    if !d.JObj? then Err(NotAnObject)
    else
      match ExchangeTs(d.members, p)
      case None => Ok(None)
      case Some(ts) =>
        match Number(d.members, "px", p)
        case Err(f) => Err(f)
        case Ok(price) =>
          match Number(d.members, "sz", p)
          case Err(f) => Err(f)
          case Ok(size) =>
            match Get(d.members, "side")
            case None => Err(MissingKey("side"))
            case Some(side) =>
              var payload := TradePayload(price, size, side, GetOr(d.members, "tradeId", JNull));
              if !ClockOrdered(st, mono(k)) then Err(ClockOrder)
              else Ok(Some(MakeEvent(symbol, TradeChannel, "trade", ts, st, mono(k), Trade(payload))))
  }

  /** The batch so far extended by one more element. */
  function Extend(symbol: string, sofar: Result<seq<NormalizedEvent>, Fault>, d: Json, st: Stamps, p: Parsers, mono: nat -> int)
    : Result<seq<NormalizedEvent>, Fault>
  {
    match sofar
    case Err(f) => Err(f)
    case Ok(evs) =>
      match TradeStep(symbol, d, |evs|, st, p, mono)
      case Err(f) => Err(f)
      case Ok(None) => Ok(evs)
      case Ok(Some(e)) => Ok(evs + [e])
  }

  /** The trades branch over the first |data| elements, as the loop leaves it. */
  function TradeEvents(symbol: string, data: seq<Json>, st: Stamps, p: Parsers, mono: nat -> int): Result<seq<NormalizedEvent>, Fault>
  {
    if data == [] then Ok([])
    else Extend(symbol, TradeEvents(symbol, data[..|data| - 1], st, p, mono), data[|data| - 1], st, p, mono)
  }

  /** What `normalize_okx` returns for a frame, or the fault it raises. */
  function Normalized(st: Stamps, msg: seq<(string, Json)>, p: Parsers, mono: nat -> int): Result<seq<NormalizedEvent>, Fault>
  {
    if IsControl(msg) then Ok([])
    else
      match ArgMembers(msg)
      case Err(f) => Err(f)
      case Ok(arg) =>
        if !HasChannelAndData(arg, msg) then Ok([])
        else
          var channel := Get(arg, "channel").value;
          var data := Get(msg, "data").value.items;
          var inst := Get(arg, "instId");
          if !TruthyOpt(inst) then Ok([])
          else if inst.value.JStr? then Branch(channel, inst.value.s, data, st, p, mono)
          else Dropped(Branch(channel, "", data, st, p, mono))
  }

  /** The channel dispatch of normalize_okx on a frame with a non-empty data list. */
  function Branch(channel: Json, symbol: string, data: seq<Json>, st: Stamps, p: Parsers, mono: nat -> int)
    : Result<seq<NormalizedEvent>, Fault>
    requires |data| > 0
  {
    if channel == JStr(BookChannel) then BookEvents(symbol, data[0], st, p, mono)
    else if channel == JStr(TradeChannel) then TradeEvents(symbol, data, st, p, mono)
    else Ok([])
  }

  /** A truthy instId that is not a string: the branch raises as it would for
      any symbol, but the events it would build (whose symbol is not a string)
      are not carried. */
  function Dropped(r: Result<seq<NormalizedEvent>, Fault>): Result<seq<NormalizedEvent>, Fault>
  {
    if r.Err? then r else Ok([])
  }

  // ---------------------------------------------------------------------
  // The imperative normalizer
  // ---------------------------------------------------------------------

  /** The level-filtering loop of one book side. */
  method ParseLevels(raw: seq<Json>, p: Parsers) returns (levels: seq<BookLevel>)
    ensures levels == KeptLevels(raw, p)
  {
    levels := [];
    var i := 0;
    while i < |raw|
      invariant 0 <= i <= |raw|
      invariant levels == KeptLevels(raw[..i], p)
    {
      assert raw[..i + 1][..i] == raw[..i];
      var level := raw[i];
      i := i + 1;
      if !level.JArr? || |level.items| < 4 {
        continue;
      }
      var price := p.toFloat(level.items[0]);
      var size := p.toFloat(level.items[1]);
      var count := p.toInt(level.items[3]);
      if price.None? || size.None? || count.None? {
        continue;
      }
      levels := levels + [BookLevel(price.value, size.value, count.value)];
    }
    assert raw[..i] == raw;
  }

  method ParseSide(raw: Option<Json>, p: Parsers) returns (r: Result<seq<BookLevel>, Fault>)
    ensures r == BookSide(raw, p)
  {
    if !TruthyOpt(raw) {
      return Ok([]);
    }
    match raw.value
    case JArr(items) =>
      var levels := ParseLevels(items, p);
      r := Ok(levels);
    case JStr(_) => r := Ok([]);
    case JObj(_) => r := Ok([]);
    case _ => r := Err(NotIterable);
  }

  /** The books5 branch of normalize_okx. */
  method BuildBookEvent(symbol: string, d0: Json, st: Stamps, p: Parsers, mono: nat -> int)
    returns (r: Result<seq<NormalizedEvent>, Fault>)
    ensures r == BookEvents(symbol, d0, st, p, mono)
  {
    if !d0.JObj? {
      return Err(NotAnObject);
    }
    var ts := ExchangeTs(d0.members, p);
    if ts.None? {
      return Ok([]);
    }
    var bids := ParseSide(Get(d0.members, "bids"), p);
    if bids.Err? {
      return Err(bids.error);
    }
    var asks := ParseSide(Get(d0.members, "asks"), p);
    if asks.Err? {
      return Err(asks.error);
    }
    var bestBid := if bids.value != [] then bids.value[0].price else 0.0;
    var bestAsk := if asks.value != [] then asks.value[0].price else 0.0;
    var payload := BookPayload(BookDepth, bestBid, bestAsk, bids.value, asks.value);
    var procNs := mono(0);
    if st.decodedMonoNs < st.recvMonoNs || procNs < st.decodedMonoNs {
      return Err(ClockOrder);
    }
    return Ok([MakeEvent(symbol, BookChannel, "book_topn", ts.value, st, procNs, Book(payload))]);
  }

  /** One more element at the end of a trades batch. */
  lemma TradeEventsSnoc(symbol: string, pre: seq<Json>, d: Json, st: Stamps, p: Parsers, mono: nat -> int)
    ensures TradeEvents(symbol, pre + [d], st, p, mono)
         == Extend(symbol, TradeEvents(symbol, pre, st, p, mono), d, st, p, mono)
  {
    assert (pre + [d])[..|pre + [d]| - 1] == pre;
  }

  /** Once a prefix of a trades batch raises, the whole batch raises the same fault. */
  lemma {:induction false} TradeFaultPersists(symbol: string, data: seq<Json>, i: nat, st: Stamps, p: Parsers, mono: nat -> int)
    requires i <= |data|
    requires TradeEvents(symbol, data[..i], st, p, mono).Err?
    ensures TradeEvents(symbol, data, st, p, mono) == TradeEvents(symbol, data[..i], st, p, mono)
    decreases |data| - i
  {
    if i < |data| {
      assert data[..i + 1][..i] == data[..i];
      TradeFaultPersists(symbol, data, i + 1, st, p, mono);
    } else {
      assert data[..i] == data;
    }
  }

  /** The trades branch of normalize_okx: one pass over the data list. */
  method BuildTradeEvents(symbol: string, items: seq<Json>, st: Stamps, p: Parsers, mono: nat -> int)
    returns (r: Result<seq<NormalizedEvent>, Fault>)
    ensures r == TradeEvents(symbol, items, st, p, mono)
  {
    var events: seq<NormalizedEvent> := [];
    var i := 0;
    while i < |items|
      invariant 0 <= i <= |items|
      invariant TradeEvents(symbol, items[..i], st, p, mono) == Ok(events)
    {
      assert items[..i + 1][..i] == items[..i];
      var d := items[i];
      i := i + 1;
      if !d.JObj? {
        TradeFaultPersists(symbol, items, i, st, p, mono);
        return Err(NotAnObject);
      }
      var ts := ExchangeTs(d.members, p);
      if ts.None? {
        continue;
      }
      var price := Number(d.members, "px", p);
      if price.Err? {
        TradeFaultPersists(symbol, items, i, st, p, mono);
        return Err(price.error);
      }
      var size := Number(d.members, "sz", p);
      if size.Err? {
        TradeFaultPersists(symbol, items, i, st, p, mono);
        return Err(size.error);
      }
      var side := Get(d.members, "side");
      if side.None? {
        TradeFaultPersists(symbol, items, i, st, p, mono);
        return Err(MissingKey("side"));
      }
      var payload := TradePayload(price.value, size.value, side.value, GetOr(d.members, "tradeId", JNull));
      var procNs := mono(|events|);
      if st.decodedMonoNs < st.recvMonoNs || procNs < st.decodedMonoNs {
        TradeFaultPersists(symbol, items, i, st, p, mono);
        return Err(ClockOrder);
      }
      events := events + [MakeEvent(symbol, TradeChannel, "trade", ts.value, st, procNs, Trade(payload))];
    }
    assert items[..i] == items;
    return Ok(events);
  }

  /** normalize_okx: the frame's events, in order, or the fault it raises. */
  method NormalizeOkx(st: Stamps, msg: seq<(string, Json)>, p: Parsers, mono: nat -> int)
    returns (r: Result<seq<NormalizedEvent>, Fault>)
    ensures r == Normalized(st, msg, p, mono)
  {
    if IsControl(msg) {
      return Ok([]);
    }
    var argOrFault := ArgMembers(msg);
    if argOrFault.Err? {
      return Err(argOrFault.error);
    }
    var arg := argOrFault.value;
    var channel := Get(arg, "channel");
    var data := Get(msg, "data");
    if !TruthyOpt(channel) || !data.Some? || !data.value.JArr? || |data.value.items| == 0 {
      return Ok([]);
    }
    var inst := Get(arg, "instId");
    if !TruthyOpt(inst) {
      return Ok([]);
    }
    var symbol := if inst.value.JStr? then inst.value.s else "";
    if channel.value == JStr(BookChannel) {
      r := BuildBookEvent(symbol, data.value.items[0], st, p, mono);
    } else if channel.value == JStr(TradeChannel) {
      r := BuildTradeEvents(symbol, data.value.items, st, p, mono);
    } else {
      r := Ok([]);
    }
    if !inst.value.JStr? && r.Ok? {
      r := Ok([]);
    }
  }

  // ---------------------------------------------------------------------
  // Properties of the normalizer
  // ---------------------------------------------------------------------

  /** The instrument id a frame names, "" when it names none. */
  function InstId(msg: seq<(string, Json)>): string
  {
    match ArgMembers(msg)
    case Ok(arg) => (match Get(arg, "instId") case Some(JStr(s)) => s case _ => "")
    case Err(_) => ""
  }

  /** What every returned event carries: the fixed exchange name, the frame's
      instrument, the branch's channel, type and payload kind, the receipt
      stamps copied unchanged, and the monotonic ordering recv <= decoded <= proc. */
  predicate Canonical(e: NormalizedEvent, symbol: string, st: Stamps)
  {
    && e.exchange == "okx"
    && e.symbol == symbol
    && e.tsRecvEpochMs == st.recvEpochMs
    && e.tsRecvMonoNs == st.recvMonoNs
    && e.tsDecodedMonoNs == st.decodedMonoNs
    && e.tsRecvMonoNs <= e.tsDecodedMonoNs <= e.tsProcMonoNs
    && ((e.channel == BookChannel && e.eventType == "book_topn" && e.payload.Book? && e.payload.book.n == BookDepth)
        || (e.channel == TradeChannel && e.eventType == "trade" && e.payload.Trade?))
  }

  /** Frames the normalizer filters out before looking at any data element. */
  lemma FilteredFramesYieldNothing(st: Stamps, msg: seq<(string, Json)>, p: Parsers, mono: nat -> int)
    ensures IsControl(msg) ==> Normalized(st, msg, p, mono) == Ok([])
    ensures !IsControl(msg) && ArgMembers(msg).Ok? && !HasChannelAndData(ArgMembers(msg).value, msg)
            ==> Normalized(st, msg, p, mono) == Ok([])
    ensures !IsControl(msg) && ArgMembers(msg).Ok? && !TruthyOpt(Get(ArgMembers(msg).value, "instId"))
            ==> Normalized(st, msg, p, mono) == Ok([])
    ensures !IsControl(msg) && ArgMembers(msg).Ok?
            && Get(ArgMembers(msg).value, "channel") != Some(JStr(BookChannel))
            && Get(ArgMembers(msg).value, "channel") != Some(JStr(TradeChannel))
            ==> Normalized(st, msg, p, mono) == Ok([])
  {
  }

  /** Filtering a concatenation filters each part. */
  lemma {:induction false} KeptLevelsAppend(a: seq<Json>, b: seq<Json>, p: Parsers)
    ensures KeptLevels(a + b, p) == KeptLevels(a, p) + KeptLevels(b, p)
    decreases |b|
  {
    if b == [] {
      assert a + b == a;
    } else {
      var b' := b[..|b| - 1];
      assert (a + b)[..|a + b| - 1] == a + b';
      KeptLevelsAppend(a, b', p);
    }
  }

  /** Each level is kept or dropped on its own: dropping a malformed level
      leaves the levels around it as they were. */
  lemma LevelFilterIsPointwise(before: seq<Json>, level: Json, after: seq<Json>, p: Parsers)
    ensures KeptLevels(before + [level] + after, p)
         == KeptLevels(before, p) + (if LevelOk(level, p) then [ToLevel(level, p)] else []) + KeptLevels(after, p)
  {
    KeptLevelsAppend(before + [level], after, p);
    assert (before + [level])[..|before + [level]| - 1] == before;
  }

  /** The kept levels are the well-formed ones, converted, in input order. */
  lemma {:induction false} KeptLevelsAreConverted(raw: seq<Json>, p: Parsers)
    ensures |KeptLevels(raw, p)| <= |raw|
    ensures (forall i :: 0 <= i < |raw| ==> LevelOk(raw[i], p))
            ==> |KeptLevels(raw, p)| == |raw|
                && forall i :: 0 <= i < |raw| ==> KeptLevels(raw, p)[i] == ToLevel(raw[i], p)
    ensures (forall i :: 0 <= i < |raw| ==> !LevelOk(raw[i], p)) ==> KeptLevels(raw, p) == []
    decreases |raw|
  {
    if raw != [] {
      var r := raw[..|raw| - 1];
      assert forall i :: 0 <= i < |r| ==> r[i] == raw[i];
      KeptLevelsAreConverted(r, p);
    }
  }

  /** The books5 branch yields at most one event, built from the first data
      element: best bid and ask are the prices of the first kept levels (0.0
      for an empty side) and the depth is always 5. */
  lemma BookEventShape(symbol: string, d0: Json, st: Stamps, p: Parsers, mono: nat -> int)
    requires BookEvents(symbol, d0, st, p, mono).Ok?
    ensures var evs := BookEvents(symbol, d0, st, p, mono).value;
      && |evs| <= 1
      && (|evs| == 1 ==>
           && d0.JObj?
           && ExchangeTs(d0.members, p) == Some(evs[0].tsExchangeMs)
           && evs[0].tsProcMonoNs == mono(0)
           && var bids := BookSide(Get(d0.members, "bids"), p);
              var asks := BookSide(Get(d0.members, "asks"), p);
              && bids.Ok? && asks.Ok?
              && evs[0].payload == Book(BookPayload(5, BestPrice(bids.value), BestPrice(asks.value), bids.value, asks.value))
              && (bids.value != [] ==> evs[0].payload.book.bestBid == bids.value[0].price)
              && (bids.value == [] ==> evs[0].payload.book.bestBid == 0.0)
              && (asks.value != [] ==> evs[0].payload.book.bestAsk == asks.value[0].price)
              && (asks.value == [] ==> evs[0].payload.book.bestAsk == 0.0))
    ensures d0.JObj? && ExchangeTs(d0.members, p).None? ==> BookEvents(symbol, d0, st, p, mono) == Ok([])
  {
  }

  /** A missing `ts` reads as the string "0". */
  lemma MissingTimestampDefaults(members: seq<(string, Json)>, p: Parsers)
    requires Get(members, "ts").None?
    ensures ExchangeTs(members, p) == p.toInt(JStr("0"))
  {
  }

  /** The data elements of a trades frame that are objects with a parsable
      timestamp, in array order. */
  function Tradable(data: seq<Json>, p: Parsers): seq<Json>
  {
    if data == [] then []
    else
      var d := data[|data| - 1];
      Tradable(data[..|data| - 1], p) + (if d.JObj? && ExchangeTs(d.members, p).Some? then [d] else [])
  }

  /** A successful trades batch has exactly one event per tradable element,
      in array order, the i-th built with the i-th clock reading. */
  lemma {:induction false} TradeEventsMatchElements(symbol: string, data: seq<Json>, st: Stamps, p: Parsers, mono: nat -> int)
    requires TradeEvents(symbol, data, st, p, mono).Ok?
    ensures var evs := TradeEvents(symbol, data, st, p, mono).value;
      && |evs| == |Tradable(data, p)|
      && forall i :: 0 <= i < |evs| ==> TradeStep(symbol, Tradable(data, p)[i], i, st, p, mono) == Ok(Some(evs[i]))
  {
    if data != [] {
      var pre := data[..|data| - 1];
      TradeEventsMatchElements(symbol, pre, st, p, mono);
    }
  }

  /** An element with a parsable timestamp whose price, size or side cannot be
      read makes the whole batch raise, whatever the other elements hold. */
  lemma TradeFaultsAreFatal(symbol: string, data: seq<Json>, j: nat, st: Stamps, p: Parsers, mono: nat -> int)
    requires j < |data| && data[j].JObj? && ExchangeTs(data[j].members, p).Some?
    requires Number(data[j].members, "px", p).Err? || Number(data[j].members, "sz", p).Err?
             || Get(data[j].members, "side").None?
    ensures TradeEvents(symbol, data, st, p, mono).Err?
  {
    assert data[..j + 1][..j] == data[..j];
    assert data[..j + 1][j] == data[j];
    TradeFaultPersists(symbol, data, j + 1, st, p, mono);
  }

  lemma TradeStepCanonical(symbol: string, d: Json, k: nat, st: Stamps, p: Parsers, mono: nat -> int)
    requires TradeStep(symbol, d, k, st, p, mono).Ok? && TradeStep(symbol, d, k, st, p, mono).value.Some?
    ensures Canonical(TradeStep(symbol, d, k, st, p, mono).value.value, symbol, st)
  {
  }

  /** Every event a frame yields is canonical: fields copied unchanged and the
      monotonic stamps ordered. Hence a frame whose decode stamp precedes its
      receipt stamp never yields an event. */
  lemma NormalizedEventsAreCanonical(st: Stamps, msg: seq<(string, Json)>, p: Parsers, mono: nat -> int)
    requires Normalized(st, msg, p, mono).Ok?
    ensures forall e :: e in Normalized(st, msg, p, mono).value ==> Canonical(e, InstId(msg), st)
    ensures st.decodedMonoNs < st.recvMonoNs ==> Normalized(st, msg, p, mono) == Ok([])
  {
    var evs := Normalized(st, msg, p, mono).value;
    if !IsControl(msg) && ArgMembers(msg).Ok? {
      var arg := ArgMembers(msg).value;
      if HasChannelAndData(arg, msg) && TruthyOpt(Get(arg, "instId")) && Get(arg, "instId").value.JStr?
         && Get(arg, "channel").value == JStr(TradeChannel) {
        var symbol := Get(arg, "instId").value.s;
        var data := Get(msg, "data").value.items;
        TradeEventsMatchElements(symbol, data, st, p, mono);
        forall e | e in evs ensures Canonical(e, InstId(msg), st) {
          var i :| 0 <= i < |evs| && evs[i] == e;
          TradeStepCanonical(symbol, Tradable(data, p)[i], i, st, p, mono);
        }
        assert evs != [] ==> evs[0] in evs;
      }
    }
  }

  /** The symbol plays no part in whether a books5 element raises, or in
      how many events it gives. */
  lemma BookFaultsIgnoreSymbol(s1: string, s2: string, d0: Json, st: Stamps, p: Parsers, mono: nat -> int)
    ensures BookEvents(s1, d0, st, p, mono).Err? <==> BookEvents(s2, d0, st, p, mono).Err?
    ensures BookEvents(s1, d0, st, p, mono).Err? ==> BookEvents(s1, d0, st, p, mono) == BookEvents(s2, d0, st, p, mono)
    ensures BookEvents(s1, d0, st, p, mono).Ok? ==>
            |BookEvents(s1, d0, st, p, mono).value| == |BookEvents(s2, d0, st, p, mono).value|
  {
  }

  /** The symbol plays no part in whether a trades batch raises, in the fault
      it raises, or in how many events it gives. */
  lemma {:induction false} TradeFaultsIgnoreSymbol(s1: string, s2: string, data: seq<Json>, st: Stamps, p: Parsers, mono: nat -> int)
    ensures TradeEvents(s1, data, st, p, mono).Err? <==> TradeEvents(s2, data, st, p, mono).Err?
    ensures TradeEvents(s1, data, st, p, mono).Err? ==> TradeEvents(s1, data, st, p, mono) == TradeEvents(s2, data, st, p, mono)
    ensures TradeEvents(s1, data, st, p, mono).Ok? ==>
            |TradeEvents(s1, data, st, p, mono).value| == |TradeEvents(s2, data, st, p, mono).value|
  {
    if data != [] {
      TradeFaultsIgnoreSymbol(s1, s2, data[..|data| - 1], st, p, mono);
    }
  }

  /** A frame whose instId is truthy but not a string raises exactly when,
      and with the fault that, the same frame would raise under any string
      symbol: a non-object books5 element, an element with a good ts whose
      px, sz or side cannot be read, or the clock check. Otherwise it yields
      nothing. */
  lemma NonStringInstIdFaults(st: Stamps, msg: seq<(string, Json)>, p: Parsers, mono: nat -> int, symbol: string)
    requires !IsControl(msg) && ArgMembers(msg).Ok?
    requires HasChannelAndData(ArgMembers(msg).value, msg)
    requires TruthyOpt(Get(ArgMembers(msg).value, "instId")) && !Get(ArgMembers(msg).value, "instId").value.JStr?
    ensures var r, b := Normalized(st, msg, p, mono),
                        Branch(Get(ArgMembers(msg).value, "channel").value, symbol, Get(msg, "data").value.items, st, p, mono);
      && (r.Err? <==> b.Err?)
      && (b.Err? ==> r == b)
      && (b.Ok? ==> r == Ok([]))
  {
    var data := Get(msg, "data").value.items;
    BookFaultsIgnoreSymbol("", symbol, data[0], st, p, mono);
    TradeFaultsIgnoreSymbol("", symbol, data, st, p, mono);
  }

  // ---------------------------------------------------------------------
  // Worked frames
  // ---------------------------------------------------------------------

  /** float() and int() behave as expected on plain JSON numbers and on the
      decimal strings the worked frames use. */
  ghost predicate PlainNumbers(p: Parsers)
  {
    && (forall r :: p.toFloat(JFloat(r)) == Some(r))
    && (forall i :: p.toInt(JInt(i)) == Some(i))
  }

  function Level(price: real, size: real, count: int): Json
  {
    JArr([JFloat(price), JFloat(size), JInt(0), JInt(count)])
  }

  function Frame(channel: string, symbol: string, data: seq<Json>): seq<(string, Json)>
  {
    [("arg", JObj([("channel", JStr(channel)), ("instId", JStr(symbol))])), ("data", JArr(data))]
  }

  /** The members a subscription frame is read through. */
  lemma FrameFields(channel: string, symbol: string, data: seq<Json>)
    ensures var msg, arg := Frame(channel, symbol, data), [("channel", JStr(channel)), ("instId", JStr(symbol))];
      && Get(msg, "event") == None && Get(msg, "arg") == Some(JObj(arg)) && Get(msg, "data") == Some(JArr(data))
      && Get(arg, "channel") == Some(JStr(channel)) && Get(arg, "instId") == Some(JStr(symbol))
  {
    var arg := [("channel", JStr(channel)), ("instId", JStr(symbol))];
    var msg := Frame(channel, symbol, data);
    assert msg[..1] == [("arg", JObj(arg))];
    assert Get(msg, "event") == None by {
      assert msg[..1][..0] == [];
      assert Get(msg[..1], "event") == None;
    }
    assert Get(msg, "arg") == Some(JObj(arg));
    assert arg[..1] == [("channel", JStr(channel))];
  }

  /** A BTC-USDT snapshot stamped 1000 on the exchange, received at wall-clock
      1050 and monotonic 100, decoded at 150 and finished at 200. */
  lemma BookFrameExample(p: Parsers, mono: nat -> int)
    requires PlainNumbers(p) && p.toInt(JStr("1000")) == Some(1000) && mono(0) == 200
    ensures Normalized(Stamps(1050, 100, 150),
                       Frame("books5", "BTC-USDT",
                             [JObj([("ts", JStr("1000")),
                                    ("bids", JArr([Level(100.0, 1.0, 2)])),
                                    ("asks", JArr([Level(101.0, 1.0, 3)]))])]),
                       p, mono)
         == Ok([NormalizedEvent("okx", "BTC-USDT", "books5", "book_topn", 1000, 1050, 100, 150, 200,
                                Book(BookPayload(5, 100.0, 101.0, [BookLevel(100.0, 1.0, 2)], [BookLevel(101.0, 1.0, 3)])))])
  {
    var bidsRaw := [Level(100.0, 1.0, 2)];
    var asksRaw := [Level(101.0, 1.0, 3)];
    var d0 := [("ts", JStr("1000")), ("bids", JArr(bidsRaw)), ("asks", JArr(asksRaw))];
    var arg := [("channel", JStr("books5")), ("instId", JStr("BTC-USDT"))];
    var msg := Frame("books5", "BTC-USDT", [JObj(d0)]);
    FrameFields("books5", "BTC-USDT", [JObj(d0)]);
    assert d0[..2] == [("ts", JStr("1000")), ("bids", JArr(bidsRaw))];
    assert d0[..2][..1] == [("ts", JStr("1000"))];
    assert Get(d0, "asks") == Some(JArr(asksRaw));
    assert Get(d0, "bids") == Some(JArr(bidsRaw));
    assert Get(d0[..2], "ts") == Some(JStr("1000"));
    assert Get(d0, "ts") == Some(JStr("1000"));
    assert KeptLevels(bidsRaw, p) == [BookLevel(100.0, 1.0, 2)] by {
      assert bidsRaw[..0] == [];
    }
    assert KeptLevels(asksRaw, p) == [BookLevel(101.0, 1.0, 3)] by {
      assert asksRaw[..0] == [];
    }
    assert ExchangeTs(d0, p) == Some(1000);
    assert BookSide(Get(d0, "bids"), p) == Ok([BookLevel(100.0, 1.0, 2)]);
    assert BookSide(Get(d0, "asks"), p) == Ok([BookLevel(101.0, 1.0, 3)]);
    assert !IsControl(msg);
    assert ArgMembers(msg) == Ok(arg);
    assert HasChannelAndData(arg, msg);
  }

  /** A level whose price is not a number is dropped and the valid level
      after it still sets the best bid. */
  lemma MalformedLevelExample(p: Parsers)
    requires PlainNumbers(p) && p.toFloat(JStr("bad")).None?
    ensures KeptLevels([JArr([JStr("bad"), JFloat(1.0), JInt(0), JInt(1)]), Level(99.5, 2.0, 4)], p)
         == [BookLevel(99.5, 2.0, 4)]
  {
    var bad := JArr([JStr("bad"), JFloat(1.0), JInt(0), JInt(1)]);
    LevelFilterIsPointwise([], bad, [Level(99.5, 2.0, 4)], p);
    assert [] + [bad] + [Level(99.5, 2.0, 4)] == [bad, Level(99.5, 2.0, 4)];
    assert [Level(99.5, 2.0, 4)][..0] == [];
  }

  function TradeElement(ts: Json, price: real): Json
  {
    JObj([("ts", ts), ("px", JFloat(price)), ("sz", JFloat(1.0)), ("side", JStr("buy"))])
  }

  lemma TradeElementFields(ts: Json, price: real)
    ensures var m := TradeElement(ts, price).members;
      && Get(m, "ts") == Some(ts) && Get(m, "px") == Some(JFloat(price))
      && Get(m, "sz") == Some(JFloat(1.0)) && Get(m, "side") == Some(JStr("buy"))
      && Get(m, "tradeId") == None
  {
    var m := TradeElement(ts, price).members;
    assert m[..3] == [("ts", ts), ("px", JFloat(price)), ("sz", JFloat(1.0))];
    assert m[..3][..2] == [("ts", ts), ("px", JFloat(price))];
    assert m[..3][..2][..1] == [("ts", ts)];
    assert m[..3][..2][..1][..0] == [];
    assert Get(m[..3][..2][..1], "tradeId") == None;
    assert Get(m[..3][..2], "tradeId") == None;
    assert Get(m[..3], "tradeId") == None;
    assert Get(m[..3][..2], "ts") == Some(ts);
    assert Get(m[..3], "px") == Some(JFloat(price));
  }

  /** A trade element whose integer timestamp parses becomes one event. */
  lemma TradeStepKept(sym: string, ts: int, price: real, k: nat, st: Stamps, p: Parsers, mono: nat -> int)
    requires PlainNumbers(p) && ClockOrdered(st, mono(k))
    ensures TradeStep(sym, TradeElement(JInt(ts), price), k, st, p, mono)
         == Ok(Some(MakeEvent(sym, TradeChannel, "trade", ts, st, mono(k), Trade(TradePayload(price, 1.0, JStr("buy"), JNull)))))
  {
    TradeElementFields(JInt(ts), price);
  }

  /** A trade element whose timestamp does not parse is skipped. */
  lemma TradeStepSkipped(sym: string, ts: Json, price: real, k: nat, st: Stamps, p: Parsers, mono: nat -> int)
    requires p.toInt(ts).None?
    ensures TradeStep(sym, TradeElement(ts, price), k, st, p, mono) == Ok(None)
  {
    TradeElementFields(ts, price);
  }

  /** The trades loop over the four elements of the worked batch. */
  lemma TradeBatchEvents(p: Parsers, mono: nat -> int, e0: NormalizedEvent, e1: NormalizedEvent, e3: NormalizedEvent)
    requires PlainNumbers(p) && p.toInt(JStr("x")).None?
    requires forall k :: mono(k) >= 150
    requires e0 == MakeEvent("ETH-USDT", TradeChannel, "trade", 1, Stamps(1050, 100, 150), mono(0),
                             Trade(TradePayload(10.0, 1.0, JStr("buy"), JNull)))
    requires e1 == MakeEvent("ETH-USDT", TradeChannel, "trade", 2, Stamps(1050, 100, 150), mono(1),
                             Trade(TradePayload(11.0, 1.0, JStr("buy"), JNull)))
    requires e3 == MakeEvent("ETH-USDT", TradeChannel, "trade", 3, Stamps(1050, 100, 150), mono(2),
                             Trade(TradePayload(13.0, 1.0, JStr("buy"), JNull)))
    ensures TradeEvents("ETH-USDT", [TradeElement(JInt(1), 10.0), TradeElement(JInt(2), 11.0),
                                     TradeElement(JStr("x"), 12.0), TradeElement(JInt(3), 13.0)],
                        Stamps(1050, 100, 150), p, mono)
         == Ok([e0, e1, e3])
  {
    var sym, st := "ETH-USDT", Stamps(1050, 100, 150);
    var d0, d1, d2, d3 := TradeElement(JInt(1), 10.0), TradeElement(JInt(2), 11.0),
                          TradeElement(JStr("x"), 12.0), TradeElement(JInt(3), 13.0);
    TradeStepKept(sym, 1, 10.0, 0, st, p, mono);
    TradeStepKept(sym, 2, 11.0, 1, st, p, mono);
    TradeStepSkipped(sym, JStr("x"), 12.0, 2, st, p, mono);
    TradeStepKept(sym, 3, 13.0, 2, st, p, mono);
    TradeEventsSnoc(sym, [], d0, st, p, mono);
    assert [] + [d0] == [d0];
    var none: seq<NormalizedEvent> := [];
    assert none + [e0] == [e0];
    assert TradeEvents(sym, [d0], st, p, mono) == Ok([e0]);
    TradeEventsSnoc(sym, [d0], d1, st, p, mono);
    assert [d0] + [d1] == [d0, d1];
    var one: seq<NormalizedEvent> := [e0];
    assert one + [e1] == [e0, e1];
    assert TradeEvents(sym, [d0, d1], st, p, mono) == Ok([e0, e1]);
    TradeEventsSnoc(sym, [d0, d1], d2, st, p, mono);
    assert [d0, d1] + [d2] == [d0, d1, d2];
    assert TradeEvents(sym, [d0, d1, d2], st, p, mono) == Ok([e0, e1]);
    TradeEventsSnoc(sym, [d0, d1, d2], d3, st, p, mono);
    assert [d0, d1, d2] + [d3] == [d0, d1, d2, d3];
    var two: seq<NormalizedEvent> := [e0, e1];
    assert two + [e3] == [e0, e1, e3];
  }

  /** Three valid trades and one with a malformed timestamp yield three events. */
  lemma TradeBatchExample(p: Parsers, mono: nat -> int)
    requires PlainNumbers(p) && p.toInt(JStr("x")).None?
    requires forall k :: mono(k) >= 150
    ensures var r := Normalized(Stamps(1050, 100, 150),
                                Frame("trades", "ETH-USDT",
                                      [TradeElement(JInt(1), 10.0), TradeElement(JInt(2), 11.0),
                                       TradeElement(JStr("x"), 12.0), TradeElement(JInt(3), 13.0)]),
                                p, mono);
      && r.Ok? && |r.value| == 3
      && r.value[0].payload == Trade(TradePayload(10.0, 1.0, JStr("buy"), JNull))
      && r.value[1].payload == Trade(TradePayload(11.0, 1.0, JStr("buy"), JNull))
      && r.value[2].payload == Trade(TradePayload(13.0, 1.0, JStr("buy"), JNull))
      && r.value[2].tsExchangeMs == 3
  {
    var data := [TradeElement(JInt(1), 10.0), TradeElement(JInt(2), 11.0),
                 TradeElement(JStr("x"), 12.0), TradeElement(JInt(3), 13.0)];
    var st := Stamps(1050, 100, 150);
    var sym := "ETH-USDT";
    var arg := [("channel", JStr("trades")), ("instId", JStr(sym))];
    var msg := Frame("trades", sym, data);
    FrameFields("trades", sym, data);
    assert !IsControl(msg);
    assert ArgMembers(msg) == Ok(arg);
    assert HasChannelAndData(arg, msg);
    assert Normalized(st, msg, p, mono) == TradeEvents(sym, data, st, p, mono);
    var e0 := MakeEvent(sym, TradeChannel, "trade", 1, st, mono(0), Trade(TradePayload(10.0, 1.0, JStr("buy"), JNull)));
    var e1 := MakeEvent(sym, TradeChannel, "trade", 2, st, mono(1), Trade(TradePayload(11.0, 1.0, JStr("buy"), JNull)));
    var e3 := MakeEvent(sym, TradeChannel, "trade", 3, st, mono(2), Trade(TradePayload(13.0, 1.0, JStr("buy"), JNull)));
    TradeBatchEvents(p, mono, e0, e1, e3);
  }
}
