/** The stream side of `okx_stream` (src/okx_ws.py): the subscription it
    sends, the frames it passes on, and the reconnect loop with its attempt
    counter and exponential backoff. The websocket, the JSON decoder, the
    clocks and the stop event are the environment: what they do arrives as a
    sequence of inputs, and the stream answers each with its outputs. */
module OkxWs {
  import opened Common
  import opened Normalizer

  // ---------------------------------------------------------------------
  // The subscription
  // ---------------------------------------------------------------------

  /** `{"channel": ch, "instId": sym}` */
  function SubArg(channel: string, symbol: string): Json
  {
    JObj([("channel", JStr(channel)), ("instId", JStr(symbol))])
  }

  /** The inner comprehension: one entry per channel for one symbol. */
  function ChannelArgs(symbol: string, channels: seq<string>): (r: seq<Json>)
    ensures |r| == |channels|
    ensures forall j :: 0 <= j < |channels| ==> r[j] == SubArg(channels[j], symbol)
  {
    seq(|channels|, j requires 0 <= j < |channels| => SubArg(channels[j], symbol))
  }

  /** `[{"channel": ch, "instId": sym} for sym in symbols for ch in channels]` */
  function SubArgs(symbols: seq<string>, channels: seq<string>): seq<Json>
  {
    if symbols == [] then []
    else ChannelArgs(symbols[0], channels) + SubArgs(symbols[1..], channels)
  }

  /** `{"op": "subscribe", "args": sub_args}` */
  function SubPayload(symbols: seq<string>, channels: seq<string>): Json
  {
    JObj([("op", JStr("subscribe")), ("args", JArr(SubArgs(symbols, channels)))])
  }

  lemma MulStep(i: int, c: int, n: int)
    requires 0 <= i < n && c >= 0
    ensures i * c + c <= n * c
  {
    assert i * c + c == (i + 1) * c;
  }

  lemma {:induction false} SubArgsLength(symbols: seq<string>, channels: seq<string>)
    ensures |SubArgs(symbols, channels)| == |symbols| * |channels|
  {
    if symbols != [] {
      SubArgsLength(symbols[1..], channels);
      assert |symbols| * |channels| == |channels| + |symbols[1..]| * |channels|;
    }
  }

  /** The arguments are the symbol-major cross product: symbol i with
      channel j sits at position i * |channels| + j. */
  lemma {:induction false} SubArgsIndex(symbols: seq<string>, channels: seq<string>, i: nat, j: nat)
    requires i < |symbols| && j < |channels|
    ensures i * |channels| + j < |SubArgs(symbols, channels)|
    ensures SubArgs(symbols, channels)[i * |channels| + j] == SubArg(channels[j], symbols[i])
  {
    var c := |channels|;
    SubArgsLength(symbols, channels);
    MulStep(i, c, |symbols|);
    if i > 0 {
      SubArgsIndex(symbols[1..], channels, i - 1, j);
      assert i * c + j == c + ((i - 1) * c + j);
      assert symbols[1..][i - 1] == symbols[i];
    }
  }

  // ---------------------------------------------------------------------
  // Backoff
  // ---------------------------------------------------------------------

  function Pow2(n: nat): nat
  {
    if n == 0 then 1 else 2 * Pow2(n - 1)
  }

  lemma {:induction false} Pow2Monotone(a: nat, b: nat)
    requires a <= b
    ensures 1 <= Pow2(a) <= Pow2(b)
    decreases b
  {
    if a < b {
      Pow2Monotone(a, b - 1);
    } else if a > 0 {
      Pow2Monotone(a - 1, a - 1);
    }
  }

  function Min(a: real, b: real): real
  {
    if a <= b then a else b
  }

  const MaxBackoff := 30.0
  const FirstBackoff := 0.25

  /** `min(30.0, 0.25 * (2 ** attempt))` over the reals: the base delay
      before reconnect attempt number `attempt`. */
  function BaseDelay(attempt: nat): (r: real)
    ensures FirstBackoff <= r <= MaxBackoff
  {
    Pow2Monotone(0, attempt);
    Min(MaxBackoff, FirstBackoff * Pow2(attempt) as real)
  }

  /** The same expression as Python evaluates it: `2 ** attempt` is an exact
      integer that must be converted to a double for the product, and that
      conversion raises OverflowError once it reaches 2^1024. None stands
      for the exception, which escapes the except clause it is raised in. */
  function BaseDelayAsWritten(attempt: nat): Option<real>
  {
    if attempt >= 1024 then None else Some(Min(MaxBackoff, FirstBackoff * Pow2(attempt) as real))
  }

  /** The base delay never shrinks as the attempt number grows. */
  lemma BaseDelayMonotone(a: nat, b: nat)
    requires a <= b
    ensures BaseDelay(a) <= BaseDelay(b)
  {
    Pow2Monotone(a, b);
  }

  /** 0.25, 0.5, 1, 2, 4, 8, 16, and 30 from the eighth attempt on. */
  lemma BaseDelaySchedule(attempt: nat)
    ensures attempt <= 6 ==> BaseDelay(attempt) == FirstBackoff * Pow2(attempt) as real
    ensures attempt >= 7 ==> BaseDelay(attempt) == MaxBackoff
  {
    if attempt <= 6 {
      Pow2Monotone(attempt, 6);
      assert Pow2(6) == 64;
    } else {
      Pow2Monotone(7, attempt);
      assert Pow2(7) == 128;
    }
  }

  /** Where the expression as written agrees with the intended one, and the
      first attempt where it raises instead. */
  lemma BackoffOverflow(attempt: nat)
    ensures BaseDelayAsWritten(attempt).Some? <==> attempt < 1024
    ensures attempt < 1024 ==> BaseDelayAsWritten(attempt) == Some(BaseDelay(attempt))
    ensures BaseDelayAsWritten(1023) == Some(MaxBackoff) && BaseDelayAsWritten(1024) == None
  {
    BaseDelaySchedule(1023);
  }

  /** `time.time() % 1.0`: the fractional part of the wall clock. */
  function Jitter(wallClock: real): (f: real)
    ensures 0.0 <= f < 1.0
    ensures (wallClock - f).Floor as real == wallClock - f
  {
    wallClock - wallClock.Floor as real
  }

  /** `base_delay * (0.8 + 0.4 * (time.time() % 1.0))` */
  function Delay(base: real, wallClock: real): (d: real)
    ensures base >= 0.0 ==> 0.8 * base <= d <= 1.2 * base
    ensures base > 0.0 ==> d < 1.2 * base
  {
    var f := Jitter(wallClock);
    assert base * (0.8 + 0.4 * f) == 0.8 * base + 0.4 * (base * f);
    assert base >= 0.0 ==> 0.0 <= base * f <= base;
    assert base > 0.0 ==> base * f < base;
    base * (0.8 + 0.4 * f)
  }

  // ---------------------------------------------------------------------
  // Frames
  // ---------------------------------------------------------------------

  /** What the decoder makes of a frame's bytes: a value, or DecodeError. */
  datatype Decoding = Malformed | Decoded(value: Json)

  /** A frame as the websocket hands it over: bytes, text (whose UTF-8
      encoding goes to the decoder), or anything else. */
  datatype Frame = Binary(decoding: Decoding) | Text(decoding: Decoding) | Unexpected

  /** The message a frame carries when it is passed on: only frames of bytes
      or text that decode to an object are. */
  function Message(frame: Frame): Option<seq<(string, Json)>>
  {
    match frame
    case Unexpected => None
    case _ =>
      match frame.decoding
      case Malformed => None
      case Decoded(v) => if v.JObj? then Some(v.members) else None
  }

  // ---------------------------------------------------------------------
  // The reconnect loop
  // ---------------------------------------------------------------------

  /** The exception a connection attempt or an open connection raises:
      ConnectionClosed, OSError or TimeoutError (with the wall clock when
      it is handled), or anything else. */
  datatype Failure = Transport(wallClock: real) | Other

  /** What the environment does next. */
  datatype Input =
    | StopSet                              // `stop.set()` from elsewhere
    | Connected                            // connect and the subscription send succeeded
    | Failed(failure: Failure)             // connect, send or a read raised
    | Received(frame: Frame, stamps: Stamps) // a frame arrives, with the clock readings taken for it
    | Closed                               // the server closed the connection cleanly
    | Woke                                 // the backoff sleep is over

  datatype Output =
    | Subscribe(payload: Json)
    | Yield(stamps: Stamps, msg: seq<(string, Json)>)
    | Sleep(seconds: real)

  /** Where the generator is: waiting for a connection, reading frames,
      sleeping before the next attempt, or returned. */
  datatype Phase = Connecting | Reading | Sleeping | Finished

  datatype Stream = Stream(phase: Phase, attempt: nat, stop: bool)

  const OtherErrorDelay := 1.0

  /** The generator as first resumed: it returns at once when stop is already set. */
  function Start(stop: bool): Stream
  {
    Stream(if stop then Finished else Connecting, 0, stop)
  }

  /** The `while not stop.is_set()` test at the top of the loop. */
  function Resume(s: Stream): Stream
  {
    s.(phase := if s.stop then Finished else Connecting)
  }

  /** The two except clauses. */
  function Recover(s: Stream, f: Failure): (Stream, seq<Output>)
  {
    if s.stop then (s.(phase := Finished), [])
    else
      match f
      case Transport(clock) =>
        (Stream(Sleeping, s.attempt + 1, false), [Sleep(Delay(BaseDelay(s.attempt), clock))])
      case Other =>
        (s.(phase := Sleeping), [Sleep(OtherErrorDelay)])
  }

  /** One input and what the generator does with it. Inputs that cannot
      happen in a phase (a frame while no connection is open) change nothing. */
  function Step(sub: Json, s: Stream, input: Input): (Stream, seq<Output>)
  {
    if s.phase == Finished then (s, [])
    else
      match input
      case StopSet => (s.(stop := true), [])
      case Connected =>
        if s.phase == Connecting then (Stream(Reading, 0, s.stop), [Subscribe(sub)]) else (s, [])
      case Failed(f) =>
        if s.phase == Connecting || s.phase == Reading then Recover(s, f) else (s, [])
      case Received(frame, stamps) =>
        if s.phase != Reading then (s, [])
        else if s.stop then (Resume(s), [])
        else if Message(frame).Some? then (s, [Yield(stamps, Message(frame).value)])
        else (s, [])
      case Closed =>
        if s.phase == Reading then (Resume(s), []) else (s, [])
      case Woke =>
        if s.phase == Sleeping then (Resume(s), []) else (s, [])
  }

  /** The state after a run of inputs and everything output on the way. */
  function Run(sub: Json, s: Stream, inputs: seq<Input>): (Stream, seq<Output>)
  {
    if inputs == [] then (s, [])
    else
      var prev := Run(sub, s, inputs[..|inputs| - 1]);
      var next := Step(sub, prev.0, inputs[|inputs| - 1]);
      (next.0, prev.1 + next.1)
  }

  /** `okx_stream(url, symbols, channels, stop)` driven by `inputs`, with
      `stopAtStart` the state of the stop event when it is first resumed. */
  method OkxStream(symbols: seq<string>, channels: seq<string>, stopAtStart: bool, inputs: seq<Input>)
    returns (outs: seq<Output>, final: Stream)
    ensures (final, outs) == Run(SubPayload(symbols, channels), Start(stopAtStart), inputs)
  {
    var subArgs := SubArgs(symbols, channels);
    var sub := JObj([("op", JStr("subscribe")), ("args", JArr(subArgs))]);
    var attempt: nat := 0;
    var stop := stopAtStart;
    var phase := if stop then Finished else Connecting;
    outs := [];
    var i := 0;
    while i < |inputs|
      invariant 0 <= i <= |inputs|
      invariant (Stream(phase, attempt, stop), outs) == Run(sub, Start(stopAtStart), inputs[..i])
    {
      assert inputs[..i + 1][..i] == inputs[..i];
      var input := inputs[i];
      ghost var before, outsBefore := Stream(phase, attempt, stop), outs;
      if phase != Finished {
        match input {
          case StopSet =>
            stop := true;
          case Connected =>
            if phase == Connecting {
              outs := outs + [Subscribe(sub)];
              attempt := 0;
              phase := Reading;
            }
          case Failed(f) =>
            if phase == Connecting || phase == Reading {
              if stop {
                phase := Finished;
              } else if f.Transport? {
                var baseDelay := BaseDelay(attempt);
                var delay := Delay(baseDelay, f.wallClock);
                attempt := attempt + 1;
                outs := outs + [Sleep(delay)];
                phase := Sleeping;
              } else {
                outs := outs + [Sleep(OtherErrorDelay)];
                phase := Sleeping;
              }
            }
          case Received(frame, stamps) =>
            if phase == Reading {
              if stop {
                phase := Finished;
              } else {
                var msg := Message(frame);
                if msg.Some? {
                  outs := outs + [Yield(stamps, msg.value)];
                }
              }
            }
          case Closed =>
            if phase == Reading {
              phase := if stop then Finished else Connecting;
            }
          case Woke =>
            if phase == Sleeping {
              phase := if stop then Finished else Connecting;
            }
        }
      }
      assert Stream(phase, attempt, stop) == Step(sub, before, input).0;
      assert outs == outsBefore + Step(sub, before, input).1;
      i := i + 1;
    }
    assert inputs[..|inputs|] == inputs;
    final := Stream(phase, attempt, stop);
  }

  // ---------------------------------------------------------------------
  // Properties of the loop
  // ---------------------------------------------------------------------

  /** The subscription goes out once per connection, and a connection that
      gets that far resets the attempt counter. */
  lemma SubscribeResetsAttempt(sub: Json, s: Stream)
    requires s.phase == Connecting
    ensures Step(sub, s, Connected) == (Stream(Reading, 0, s.stop), [Subscribe(sub)])
  {
  }

  /** A transport failure with stop unset sleeps for the jittered base delay
      of the current attempt, then counts the attempt. Below attempt 1024 the
      sleep is the one the expression as written computes; from 1024 on the
      written expression raises instead (see BackoffOverflow), while the
      loop here keeps the intended 30 s cap. */
  lemma TransportFailureBacksOff(sub: Json, s: Stream, clock: real)
    requires s.phase == Connecting || s.phase == Reading
    requires !s.stop
    ensures var (t, o) := Step(sub, s, Failed(Transport(clock)));
      && t == Stream(Sleeping, s.attempt + 1, false)
      && |o| == 1 && o[0].Sleep?
      && 0.8 * BaseDelay(s.attempt) <= o[0].seconds < 1.2 * BaseDelay(s.attempt)
      && o[0].seconds < 1.2 * MaxBackoff
      && (s.attempt < 1024 ==> BaseDelayAsWritten(s.attempt).Some?
                               && o == [Sleep(Delay(BaseDelayAsWritten(s.attempt).value, clock))])
      && (s.attempt >= 1024 ==> BaseDelayAsWritten(s.attempt).None?)
  {
    BackoffOverflow(s.attempt);
  }

  /** Any other exception waits one second and leaves the counter alone. */
  lemma OtherFailureWaitsOneSecond(sub: Json, s: Stream)
    requires s.phase == Connecting || s.phase == Reading
    requires !s.stop
    ensures Step(sub, s, Failed(Other)) == (s.(phase := Sleeping), [Sleep(1.0)])
  {
  }

  /** With stop set, either except clause leaves the loop without sleeping. */
  lemma StopOnFailureExits(sub: Json, s: Stream, f: Failure)
    requires s.phase == Connecting || s.phase == Reading
    requires s.stop
    ensures Step(sub, s, Failed(f)) == (s.(phase := Finished), [])
  {
  }

  /** A frame that arrives after stop is set is not passed on: the loop ends.
      Before that, a frame is passed on exactly when it carries an object,
      and a skipped frame leaves the connection open. */
  lemma FrameHandling(sub: Json, s: Stream, frame: Frame, stamps: Stamps)
    requires s.phase == Reading
    ensures s.stop ==> Step(sub, s, Received(frame, stamps)) == (s.(phase := Finished), [])
    ensures !s.stop && Message(frame).None? ==> Step(sub, s, Received(frame, stamps)) == (s, [])
    ensures !s.stop && Message(frame).Some? ==>
      Step(sub, s, Received(frame, stamps)) == (s, [Yield(stamps, Message(frame).value)])
  {
  }

  /** Running two stretches of input one after the other. */
  lemma {:induction false} RunAppend(sub: Json, s: Stream, a: seq<Input>, b: seq<Input>)
    ensures Run(sub, s, a + b).0 == Run(sub, Run(sub, s, a).0, b).0
    ensures Run(sub, s, a + b).1 == Run(sub, s, a).1 + Run(sub, Run(sub, s, a).0, b).1
    decreases |b|
  {
    var t := Run(sub, s, a).0;
    if b == [] {
      assert a + b == a;
      assert Run(sub, t, b).1 == [];
      assert Run(sub, s, a).1 + [] == Run(sub, s, a).1;
    } else {
      var init, last := b[..|b| - 1], b[|b| - 1];
      RunAppend(sub, s, a, init);
      assert (a + b)[..|a + b| - 1] == a + init;
      assert (a + b)[|a + b| - 1] == last;
      var mid := Run(sub, t, init);
      var next := Step(sub, mid.0, last);
      assert Run(sub, t, b) == (next.0, mid.1 + next.1);
      assert Run(sub, s, a + b) == (next.0, Run(sub, s, a + init).1 + next.1);
      assert Run(sub, s, a + init).1 == Run(sub, s, a).1 + mid.1;
    }
  }

  /** Only a subscription send can follow stop: no frame is passed on and
      no sleep starts once stop is set, and stop stays set. */
  lemma {:induction false} NothingAfterStop(sub: Json, s: Stream, inputs: seq<Input>)
    requires s.stop
    ensures Run(sub, s, inputs).0.stop
    ensures forall k :: 0 <= k < |Run(sub, s, inputs).1| ==> Run(sub, s, inputs).1[k].Subscribe?
  {
    if inputs != [] {
      NothingAfterStop(sub, s, inputs[..|inputs| - 1]);
    }
  }

  /** Whatever came before, the outputs after a stop are subscriptions only. */
  lemma StopEndsOutput(sub: Json, s: Stream, before: seq<Input>, after: seq<Input>)
    ensures var o := Run(sub, s, before + [StopSet] + after).1;
      var o0 := Run(sub, s, before).1;
      && o0 <= o
      && forall k :: |o0| <= k < |o| ==> o[k].Subscribe?
  {
    var t := Run(sub, s, before).0;
    RunAppend(sub, s, before, [StopSet]);
    assert [StopSet][..0] == [];
    var u := Run(sub, s, before + [StopSet]).0;
    assert u.stop || u.phase == Finished;
    RunAppend(sub, s, before + [StopSet], after);
    if u.stop {
      NothingAfterStop(sub, u, after);
    } else {
      FinishedStays(sub, u, after);
    }
  }

  /** A returned generator stays returned and silent. */
  lemma {:induction false} FinishedStays(sub: Json, s: Stream, inputs: seq<Input>)
    requires s.phase == Finished
    ensures Run(sub, s, inputs) == (s, [])
  {
    if inputs != [] {
      FinishedStays(sub, s, inputs[..|inputs| - 1]);
      var none: seq<Output> := [];
      assert Step(sub, s, inputs[|inputs| - 1]) == (s, none);
      assert none + none == none;
      assert Run(sub, s, inputs) == (s, none);
    }
  }
}
