/** The wiring in src/app.py: how `main` turns the comma-separated
    `--symbols` and `--channels` arguments into lists, how the ingestion
    task hands each decoded frame to the normalizer and each event to the
    metrics and then to every sink, and the order of the shutdown steps. The
    sinks are abstract here: whether a write or a close raises is an input,
    and what the task does is recorded as a trace of actions. */
module App {
  import opened Common
  import opened Normalizer
  import Rolling
  import OkxWs

  // ---------------------------------------------------------------------
  // List arguments
  // ---------------------------------------------------------------------

  /** `str.isspace()` for one character: the characters `str.strip()`
      removes when called without arguments. */
  predicate IsSpace(c: char)
  {
    || ('\t' <= c <= '\r')
    || ('\U{1C}' <= c <= '\U{1F}')
    || c == ' ' || c == '\U{85}' || c == '\U{A0}' || c == '\U{1680}'
    || ('\U{2000}' <= c <= '\U{200A}')
    || c == '\U{2028}' || c == '\U{2029}' || c == '\U{202F}' || c == '\U{205F}' || c == '\U{3000}'
  }

  /** `s.split(",")`: the pieces between commas, always at least one. */
  function Split(s: string): (r: seq<string>)
    ensures |r| >= 1
  {
    if s == [] then [[]]
    else
      var rest := Split(s[1..]);
      if s[0] == ',' then [[]] + rest
      else [[s[0]] + rest[0]] + rest[1..]
  }

  /** `",".join(pieces)` */
  function JoinComma(pieces: seq<string>): string
    requires |pieces| >= 1
  {
    if |pieces| == 1 then pieces[0] else pieces[0] + "," + JoinComma(pieces[1..])
  }

  predicate CommaFree(s: string)
  {
    forall k :: 0 <= k < |s| ==> s[k] != ','
  }

  /** Splitting and joining again gives the argument back, and no piece
      holds a comma. */
  lemma {:induction false} SplitJoin(s: string)
    ensures JoinComma(Split(s)) == s
    ensures forall k :: 0 <= k < |Split(s)| ==> CommaFree(Split(s)[k])
  {
    if s != [] {
      var rest := Split(s[1..]);
      SplitJoin(s[1..]);
      if s[0] == ',' {
        assert s == [','] + s[1..];
      } else {
        assert CommaFree([s[0]] + rest[0]);
        if |rest| == 1 {
          assert s == [s[0]] + rest[0];
        } else {
          assert rest == [rest[0]] + rest[1..];
          assert JoinComma(rest) == rest[0] + "," + JoinComma(rest[1..]);
          assert s == [s[0]] + s[1..];
        }
        var r := Split(s);
        forall k | 1 <= k < |r|
          ensures CommaFree(r[k])
        {
          assert r[k] == rest[k];
        }
      }
    }
  }

  /** A comma splits the text into the pieces before it and after it. */
  lemma {:induction false} SplitAppend(a: string, b: string)
    ensures Split(a + "," + b) == Split(a) + Split(b)
  {
    if a == [] {
      assert a + "," + b == [','] + b;
      assert ([','] + b)[1..] == b;
    } else {
      var t := a[1..] + "," + b;
      assert a + "," + b == [a[0]] + t;
      assert ([a[0]] + t)[1..] == t;
      SplitAppend(a[1..], b);
    }
  }

  /** Text without commas is a single piece. */
  lemma {:induction false} SplitCommaFree(s: string)
    requires CommaFree(s)
    ensures Split(s) == [s]
  {
    if s != [] {
      SplitCommaFree(s[1..]);
      assert s == [s[0]] + s[1..];
    }
  }

  /** Joining comma-free pieces and splitting again gives the pieces back. */
  lemma {:induction false} JoinSplit(pieces: seq<string>)
    requires |pieces| >= 1
    requires forall k :: 0 <= k < |pieces| ==> CommaFree(pieces[k])
    ensures Split(JoinComma(pieces)) == pieces
  {
    SplitCommaFree(pieces[0]);
    if |pieces| > 1 {
      JoinSplit(pieces[1..]);
      SplitAppend(pieces[0], JoinComma(pieces[1..]));
      assert pieces == [pieces[0]] + pieces[1..];
    }
  }

  /** `s.lstrip()` */
  function StripLeft(s: string): string
  {
    if s != [] && IsSpace(s[0]) then StripLeft(s[1..]) else s
  }

  /** `s.rstrip()` */
  function StripRight(s: string): string
  {
    if s != [] && IsSpace(s[|s| - 1]) then StripRight(s[..|s| - 1]) else s
  }

  /** Stripping on the left drops a run of whitespace and stops at the first other character. */
  lemma {:induction false} StripLeftShape(s: string)
    ensures var r := StripLeft(s);
      && |r| <= |s| && r == s[|s| - |r|..]
      && (forall k :: 0 <= k < |s| - |r| ==> IsSpace(s[k]))
      && (r == [] || !IsSpace(r[0]))
  {
    if s != [] && IsSpace(s[0]) {
      StripLeftShape(s[1..]);
      var r := StripLeft(s[1..]);
      assert s[1..][|s| - 1 - |r|..] == s[|s| - |r|..];
      forall k | 0 <= k < |s| - |r|
        ensures IsSpace(s[k])
      {
        if k > 0 {
          assert s[k] == s[1..][k - 1];
        }
      }
    }
  }

  /** Stripping on the right drops a run of whitespace and stops at the last other character. */
  lemma {:induction false} StripRightShape(s: string)
    ensures var r := StripRight(s);
      && |r| <= |s| && r == s[..|r|]
      && (forall k :: |r| <= k < |s| ==> IsSpace(s[k]))
      && (r == [] || !IsSpace(r[|r| - 1]))
  {
    if s != [] && IsSpace(s[|s| - 1]) {
      StripRightShape(s[..|s| - 1]);
      var r := StripRight(s[..|s| - 1]);
      assert s[..|s| - 1][..|r|] == s[..|r|];
      forall k | |r| <= k < |s|
        ensures IsSpace(s[k])
      {
        if k < |s| - 1 {
          assert s[k] == s[..|s| - 1][k];
        }
      }
    }
  }

  /** `s.strip()` */
  function Strip(s: string): string
  {
    StripRight(StripLeft(s))
  }

  /** The stripped text is a run of the original with only whitespace cut
      from either end; it is empty exactly when the original is all
      whitespace. */
  lemma StripShape(s: string)
    ensures var r := Strip(s);
      && (r == [] || (!IsSpace(r[0]) && !IsSpace(r[|r| - 1])))
      && (r == [] <==> forall k :: 0 <= k < |s| ==> IsSpace(s[k]))
      && (CommaFree(s) ==> CommaFree(r))
  {
    StripEnds(s);
    StripEmpty(s);
    StripCommaFree(s);
  }

  lemma StripEnds(s: string)
    ensures var r := Strip(s); r == [] || (!IsSpace(r[0]) && !IsSpace(r[|r| - 1]))
  {
    var l := StripLeft(s);
    StripLeftShape(s);
    StripRightShape(l);
    assert StripRight(l) != [] ==> StripRight(l)[0] == l[0];
  }

  lemma StripEmpty(s: string)
    ensures Strip(s) == [] <==> forall k :: 0 <= k < |s| ==> IsSpace(s[k])
  {
    var l := StripLeft(s);
    StripLeftShape(s);
    StripRightShape(l);
    assert l != [] ==> l[0] == s[|s| - |l|];
    assert StripRight(l) == [] ==> l == [];
  }

  lemma StripCommaFree(s: string)
    ensures CommaFree(s) ==> CommaFree(Strip(s))
  {
    var l := StripLeft(s);
    var r := StripRight(l);
    StripLeftShape(s);
    StripRightShape(l);
    assert forall k :: 0 <= k < |r| ==> r[k] == l[k] == s[|s| - |l| + k];
  }

  /** The entries the comprehension keeps: stripped, non-empty pieces. */
  function Kept(pieces: seq<string>): seq<string>
  {
    if pieces == [] then []
    else KeptPiece(pieces[0]) + Kept(pieces[1..])
  }

  /** One piece, stripped, or nothing when it is blank. */
  function KeptPiece(piece: string): seq<string>
  {
    if Strip(piece) != [] then [Strip(piece)] else []
  }

  /** `[s.strip() for s in arg.split(",") if s.strip()]` */
  function ParseList(arg: string): seq<string>
  {
    Kept(Split(arg))
  }

  lemma {:induction false} KeptAppend(a: seq<string>, b: seq<string>)
    ensures Kept(a + b) == Kept(a) + Kept(b)
  {
    if a == [] {
      assert a + b == b;
    } else {
      var ab := a + b;
      assert ab[0] == a[0];
      assert ab[1..] == a[1..] + b;
      KeptAppend(a[1..], b);
      AppendAssociates(KeptPiece(a[0]), Kept(a[1..]), Kept(b));
    }
  }

  /** The lists keep the order of the argument: the entries before a comma
      come before the entries after it. */
  lemma ParseListAppend(a: string, b: string)
    ensures ParseList(a + "," + b) == ParseList(a) + ParseList(b)
  {
    SplitAppend(a, b);
    KeptAppend(Split(a), Split(b));
  }

  lemma {:induction false} KeptClean(pieces: seq<string>)
    requires forall k :: 0 <= k < |pieces| ==> CommaFree(pieces[k])
    ensures forall k :: 0 <= k < |Kept(pieces)| ==>
      var e := Kept(pieces)[k];
      e != [] && !IsSpace(e[0]) && !IsSpace(e[|e| - 1]) && CommaFree(e)
  {
    if pieces != [] {
      KeptClean(pieces[1..]);
      StripShape(pieces[0]);
    }
  }

  /** Every entry is non-empty, has no whitespace at either end and holds
      no comma. */
  lemma ParseListClean(arg: string)
    ensures forall k :: 0 <= k < |ParseList(arg)| ==>
      var e := ParseList(arg)[k];
      e != [] && !IsSpace(e[0]) && !IsSpace(e[|e| - 1]) && CommaFree(e)
  {
    SplitJoin(arg);
    KeptClean(Split(arg));
  }

  /** An argument without commas gives its stripped text, or nothing when
      that is empty. */
  lemma ParseListSingle(arg: string)
    requires CommaFree(arg)
    ensures ParseList(arg) == if Strip(arg) == [] then [] else [Strip(arg)]
  {
    SplitCommaFree(arg);
    assert Split(arg)[1..] == [];
    assert Split(arg)[0] == arg;
    assert Kept(Split(arg)) == KeptPiece(arg) + Kept([]);
  }

  lemma StripSpaceCons(c: char, s: string)
    ensures IsSpace(c) ==> Strip([c] + s) == Strip(s)
    ensures !IsSpace(c) ==> Strip([c] + s) != []
  {
    assert ([c] + s)[1..] == s;
    if !IsSpace(c) {
      StripShape([c] + s);
      assert ([c] + s)[0] == c;
    }
  }

  /** The list is empty exactly when the argument holds nothing but commas
      and whitespace. */
  lemma {:induction false} ParseListEmpty(arg: string)
    ensures ParseList(arg) == [] <==> forall k :: 0 <= k < |arg| ==> arg[k] == ',' || IsSpace(arg[k])
  {
    if arg != [] {
      var c, tail := arg[0], arg[1..];
      ParseListEmpty(tail);
      var rest := Split(tail);
      assert forall k :: 1 <= k < |arg| ==> arg[k] == tail[k - 1];
      if c == ',' {
        assert Split(arg) == [[]] + rest;
      } else {
        assert Split(arg) == [[c] + rest[0]] + rest[1..];
        StripSpaceCons(c, rest[0]);
        assert rest == [rest[0]] + rest[1..];
      }
    }
  }

  /** Why `main` stops before starting the pipeline. */
  datatype Exit = Exit(status: int, reason: string)

  /** The symbol and channel lists `main` starts the pipeline with, or the
      exit it takes instead; symbols are checked first. */
  function Arguments(symbolsArg: string, channelsArg: string): (r: Result<(seq<string>, seq<string>), Exit>)
    ensures r.Ok? <==> ParseList(symbolsArg) != [] && ParseList(channelsArg) != []
    ensures r.Ok? ==> r.value == (ParseList(symbolsArg), ParseList(channelsArg))
    ensures r.Err? ==> r.error.status == 1
    ensures ParseList(symbolsArg) == [] ==> r == Err(Exit(1, "No symbols provided"))
  {
    var symbols := ParseList(symbolsArg);
    if symbols == [] then Err(Exit(1, "No symbols provided"))
    else
      var channels := ParseList(channelsArg);
      if channels == [] then Err(Exit(1, "No channels provided"))
      else Ok((symbols, channels))
  }

  // ---------------------------------------------------------------------
  // Ingestion
  // ---------------------------------------------------------------------

  /** A frame as the stream yields it: its clock readings and the message. */
  type Frame = (Stamps, seq<(string, Json)>)

  /** The frames a run of the stream yields, in order: what the
      `async for` of `process_stream` receives. */
  function Yields(outs: seq<OkxWs.Output>): (r: seq<Frame>)
    ensures |r| <= |outs|
    ensures forall i :: 0 <= i < |r| ==> OkxWs.Yield(r[i].0, r[i].1) in outs
    ensures (forall k :: 0 <= k < |outs| ==> !outs[k].Yield?) ==> r == []
  {
    if outs == [] then []
    else (if outs[0].Yield? then [(outs[0].stamps, outs[0].msg)] else []) + Yields(outs[1..])
  }

  /** The frames of two stretches of output, one after the other. */
  lemma {:induction false} YieldsAppend(a: seq<OkxWs.Output>, b: seq<OkxWs.Output>)
    ensures Yields(a + b) == Yields(a) + Yields(b)
  {
    if a == [] {
      assert a + b == b;
    } else {
      assert (a + b)[0] == a[0];
      assert (a + b)[1..] == a[1..] + b;
      YieldsAppend(a[1..], b);
      var head: seq<Frame> := if a[0].Yield? then [(a[0].stamps, a[0].msg)] else [];
      AppendAssociates(head, Yields(a[1..]), Yields(b));
    }
  }

  /** The hand-off from the stream to ingestion: once stop is set, whatever
      the environment does next, the ingestion task receives no further
      frame, so nothing more is normalized, counted or written. */
  lemma NoFrameAfterStop(sub: Json, s: OkxWs.Stream, before: seq<OkxWs.Input>, after: seq<OkxWs.Input>,
                         norm: Normalize, sinks: nat, fails: (nat, nat) -> bool)
    ensures var all, upTo := OkxWs.Run(sub, s, before + [OkxWs.StopSet] + after).1, OkxWs.Run(sub, s, before).1;
      && Yields(all) == Yields(upTo)
      && Process(Yields(all), norm, sinks, fails, 0, 0) == Process(Yields(upTo), norm, sinks, fails, 0, 0)
  {
    var all, upTo := OkxWs.Run(sub, s, before + [OkxWs.StopSet] + after).1, OkxWs.Run(sub, s, before).1;
    OkxWs.StopEndsOutput(sub, s, before, after);
    var rest := all[|upTo|..];
    assert all == upTo + rest;
    assert forall k :: 0 <= k < |rest| ==> rest[k] == all[|upTo| + k];
    YieldsAppend(upTo, rest);
    assert Yields(rest) == [];
    AppendIdentity(Yields(upTo));
  }

  /** What the ingestion task does, in order. A sink write records whether
      it raised; the error is logged and nothing else follows from it. */
  datatype Action =
    | UpdateMetrics(event: NormalizedEvent)
    | WriteSink(sink: nat, event: NormalizedEvent, failed: bool)
    | StopIngestion(fault: Fault)

  /** Write attempts for one event on sinks 0 .. n-1, in list order;
      `fails(ord, j)` says whether sink j raises on event number `ord`. */
  function Writes(e: NormalizedEvent, ord: nat, n: nat, fails: (nat, nat) -> bool): seq<Action>
  {
    if n == 0 then [] else Writes(e, ord, n - 1, fails) + [WriteSink(n - 1, e, fails(ord, n - 1))]
  }

  /** Sink j gets attempt j, and each attempt records that sink's outcome. */
  lemma {:induction false} WritesShape(e: NormalizedEvent, ord: nat, n: nat, fails: (nat, nat) -> bool)
    ensures |Writes(e, ord, n, fails)| == n
    ensures forall j :: 0 <= j < n ==> Writes(e, ord, n, fails)[j] == WriteSink(j, e, fails(ord, j))
  {
    if n > 0 {
      WritesShape(e, ord, n - 1, fails);
    }
  }

  /** The inner loops for one frame's events, numbered from `ord`. */
  function Deliver(events: seq<NormalizedEvent>, ord: nat, sinks: nat, fails: (nat, nat) -> bool): seq<Action>
  {
    if events == [] then []
    else EventActions(events[0], ord, sinks, fails) + Deliver(events[1..], ord + 1, sinks, fails)
  }

  /** What normalizing frame number `fi` gives. */
  type Normalize = (nat, Frame) -> Result<seq<NormalizedEvent>, Fault>

  /** `normalize_okx` on frame `fi`, where `mono(fi)` gives the per-event
      clock readings the normalizer takes for that frame. */
  function NormalizeWith(p: Parsers, mono: nat -> nat -> int): Normalize
  {
    (fi: nat, f: Frame) => Normalized(f.0, f.1, p, mono(fi))
  }

  /** `process_stream` over the frames from number `fi` on, with `ord`
      events already delivered. A fault from the normalizer ends the task,
      which then sets stop. */
  function Process(frames: seq<Frame>, norm: Normalize, sinks: nat,
                   fails: (nat, nat) -> bool, fi: nat, ord: nat): seq<Action>
  {
    if frames == [] then []
    else
      match norm(fi, frames[0])
      case Err(f) => [StopIngestion(f)]
      case Ok(events) =>
        Deliver(events, ord, sinks, fails) + Process(frames[1..], norm, sinks, fails, fi + 1, ord + |events|)
  }

  /** The fan-out loop over the sinks for one event, numbered `ord`. */
  method WriteAll(e: NormalizedEvent, ord: nat, sinks: nat, fails: (nat, nat) -> bool) returns (acts: seq<Action>)
    ensures acts == Writes(e, ord, sinks, fails)
  {
    acts := [];
    var j := 0;
    while j < sinks
      invariant 0 <= j <= sinks
      invariant acts == Writes(e, ord, j, fails)
    {
      acts := acts + [WriteSink(j, e, fails(ord, j))];
      j := j + 1;
    }
  }

  /** The loop over one frame's events: update the metrics, then fan out. */
  method DeliverAll(events: seq<NormalizedEvent>, ord: nat, sinks: nat, fails: (nat, nat) -> bool) returns (acts: seq<Action>)
    ensures acts == Deliver(events, ord, sinks, fails)
  {
    acts := [];
    var rest := events;
    var o := ord;
    AppendIdentity(Deliver(events, ord, sinks, fails));
    while rest != []
      invariant Delivered(Deliver(events, ord, sinks, fails), acts, rest, o, sinks, fails)
      decreases |rest|
    {
      var writes := WriteAll(rest[0], o, sinks, fails);
      var block := [UpdateMetrics(rest[0])] + writes;
      DeliverGoesOn(Deliver(events, ord, sinks, fails), acts, rest, o, sinks, fails, block);
      acts := acts + block;
      rest := rest[1..];
      o := o + 1;
    }
    AppendIdentity(acts);
  }

  /** The actions for the events still to deliver complete those taken so far. */
  ghost predicate Delivered(total: seq<Action>, acts: seq<Action>, rest: seq<NormalizedEvent>, ord: nat,
                            sinks: nat, fails: (nat, nat) -> bool)
  {
    total == acts + Deliver(rest, ord, sinks, fails)
  }

  lemma DeliverGoesOn(total: seq<Action>, acts: seq<Action>, rest: seq<NormalizedEvent>, ord: nat,
                      sinks: nat, fails: (nat, nat) -> bool, block: seq<Action>)
    requires rest != [] && Delivered(total, acts, rest, ord, sinks, fails)
    requires block == EventActions(rest[0], ord, sinks, fails)
    ensures Delivered(total, acts + block, rest[1..], ord + 1, sinks, fails)
  {
    AppendAssociates(acts, block, Deliver(rest[1..], ord + 1, sinks, fails));
  }

  /** The ingestion task over the frames the stream yields, with `sinks`
      sinks. `stopped` tells whether it ended by setting stop. */
  method ProcessStream(frames: seq<Frame>, norm: Normalize, sinks: nat, fails: (nat, nat) -> bool)
    returns (trace: seq<Action>, stopped: bool)
    ensures trace == Process(frames, norm, sinks, fails, 0, 0)
    ensures stopped <==> !Running(trace)
  {
    trace := [];
    stopped := false;
    var rest := frames;
    var i: nat := 0;
    var ord: nat := 0;
    ConsumedNothing(frames, norm, sinks, fails);
    while rest != []
      invariant Consumed(Process(frames, norm, sinks, fails, 0, 0), trace, rest, norm, sinks, fails, i, ord)
      invariant !stopped && Running(trace)
      decreases |rest|
    {
      var r := norm(i, rest[0]);
      if r.Err? {
        ProcessStops(Process(frames, norm, sinks, fails, 0, 0), trace, rest, norm, sinks, fails, i, ord);
        trace := trace + [StopIngestion(r.error)];
        stopped := true;
        return;
      }
      var events := r.value;
      var acts := FrameActions(events, ord, sinks, fails);
      ProcessGoesOn(Process(frames, norm, sinks, fails, 0, 0), trace, rest, norm, sinks, fails, i, ord, acts);
      trace := trace + acts;
      rest := rest[1..];
      ord := ord + |events|;
      i := i + 1;
    }
    ConsumedAll(Process(frames, norm, sinks, fails, 0, 0), trace, norm, sinks, fails, i, ord);
  }

  /** The loop invariant of `ProcessStream` after a frame that normalizes. */
  lemma ProcessGoesOn(total: seq<Action>, trace: seq<Action>, rest: seq<Frame>, norm: Normalize, sinks: nat,
                      fails: (nat, nat) -> bool, i: nat, ord: nat, acts: seq<Action>)
    requires rest != [] && norm(i, rest[0]).Ok?
    requires Consumed(total, trace, rest, norm, sinks, fails, i, ord) && Running(trace)
    requires acts == Deliver(norm(i, rest[0]).value, ord, sinks, fails) && Running(acts)
    ensures Consumed(total, trace + acts, rest[1..], norm, sinks, fails, i + 1, ord + |norm(i, rest[0]).value|)
    ensures Running(trace + acts)
  {
    ProcessFirst(rest, norm, sinks, fails, i, ord);
    AppendKeepsRunning(trace, acts);
    AppendAssociates(trace, acts, Process(rest[1..], norm, sinks, fails, i + 1, ord + |norm(i, rest[0]).value|));
  }

  /** The trace of `ProcessStream` when a frame fails to normalize. */
  lemma ProcessStops(total: seq<Action>, trace: seq<Action>, rest: seq<Frame>, norm: Normalize, sinks: nat,
                     fails: (nat, nat) -> bool, i: nat, ord: nat)
    requires rest != [] && norm(i, rest[0]).Err?
    requires Consumed(total, trace, rest, norm, sinks, fails, i, ord)
    ensures total == trace + [StopIngestion(norm(i, rest[0]).error)]
    ensures !Running(trace + [StopIngestion(norm(i, rest[0]).error)])
  {
    ProcessFirst(rest, norm, sinks, fails, i, ord);
  }

  /** `trace` is what processing gave before the frames in `rest`. */
  ghost predicate Consumed(total: seq<Action>, trace: seq<Action>, rest: seq<Frame>, norm: Normalize, sinks: nat,
                           fails: (nat, nat) -> bool, i: nat, ord: nat)
  {
    total == trace + Process(rest, norm, sinks, fails, i, ord)
  }

  lemma ConsumedNothing(frames: seq<Frame>, norm: Normalize, sinks: nat, fails: (nat, nat) -> bool)
    ensures Consumed(Process(frames, norm, sinks, fails, 0, 0), [], frames, norm, sinks, fails, 0, 0)
  {
    AppendIdentity(Process(frames, norm, sinks, fails, 0, 0));
  }

  lemma ConsumedAll(total: seq<Action>, trace: seq<Action>, norm: Normalize, sinks: nat,
                    fails: (nat, nat) -> bool, i: nat, ord: nat)
    requires Consumed(total, trace, [], norm, sinks, fails, i, ord)
    ensures total == trace
  {
    AppendIdentity(trace);
  }

  /** The empty trace is a unit of concatenation. */
  lemma AppendIdentity<T>(a: seq<T>)
    ensures a + [] == a && [] + a == a
  {
  }

  /** Concatenation of traces is associative. */
  lemma AppendAssociates<T>(a: seq<T>, b: seq<T>, c: seq<T>)
    ensures a + (b + c) == (a + b) + c
  {
  }

  /** The actions for one frame's events; they never end in a stop. */
  method FrameActions(events: seq<NormalizedEvent>, ord: nat, sinks: nat, fails: (nat, nat) -> bool)
    returns (acts: seq<Action>)
    ensures acts == Deliver(events, ord, sinks, fails)
    ensures Running(acts)
  {
    acts := [];
    if events != [] {
      acts := DeliverAll(events, ord, sinks, fails);
      DeliverEndsWithWrite(events, ord, sinks, fails);
    }
  }

  /** The actions do not end in a stop. */
  predicate Running(t: seq<Action>)
  {
    t == [] || !t[|t| - 1].StopIngestion?
  }

  /** Appending actions that do not end in a stop after ones that do not
      leaves a trace that does not end in a stop. */
  lemma AppendKeepsRunning(a: seq<Action>, b: seq<Action>)
    requires Running(a) && Running(b)
    ensures Running(a + b)
  {
  }

  /** The ingestion task with the OKX normalizer and the monotonic clock
      reading `mono(fi)` taken while frame `fi` is normalized. */
  method IngestOkx(frames: seq<Frame>, p: Parsers, mono: nat -> nat -> int, sinks: nat, fails: (nat, nat) -> bool)
    returns (trace: seq<Action>, stopped: bool)
    ensures trace == Process(frames, NormalizeWith(p, mono), sinks, fails, 0, 0)
    ensures stopped <==> !Running(trace)
  {
    trace, stopped := ProcessStream(frames, NormalizeWith(p, mono), sinks, fails);
  }

  /** One frame of `Process`. */
  lemma ProcessFirst(frames: seq<Frame>, norm: Normalize, sinks: nat, fails: (nat, nat) -> bool, fi: nat, ord: nat)
    requires frames != []
    ensures norm(fi, frames[0]).Err? ==>
      Process(frames, norm, sinks, fails, fi, ord) == [StopIngestion(norm(fi, frames[0]).error)]
    ensures norm(fi, frames[0]).Ok? ==>
      var events := norm(fi, frames[0]).value;
      Process(frames, norm, sinks, fails, fi, ord)
        == Deliver(events, ord, sinks, fails) + Process(frames[1..], norm, sinks, fails, fi + 1, ord + |events|)
  {
  }

  /** A frame's actions never end in a stop. */
  lemma DeliverEndsWithWrite(events: seq<NormalizedEvent>, ord: nat, sinks: nat, fails: (nat, nat) -> bool)
    requires events != []
    ensures var d := Deliver(events, ord, sinks, fails); d != [] && !d[|d| - 1].StopIngestion?
    decreases |events|
  {
    if |events| > 1 {
      DeliverEndsWithWrite(events[1..], ord + 1, sinks, fails);
    }
  }

  // ---------------------------------------------------------------------
  // Properties of the ingestion task
  // ---------------------------------------------------------------------

  lemma {:induction false} DeliverLength(events: seq<NormalizedEvent>, ord: nat, sinks: nat, fails: (nat, nat) -> bool)
    ensures |Deliver(events, ord, sinks, fails)| == |events| * (sinks + 1)
  {
    if events != [] {
      DeliverLength(events[1..], ord + 1, sinks, fails);
      WritesShape(events[0], ord, sinks, fails);
      assert |events| * (sinks + 1) == (sinks + 1) + |events[1..]| * (sinks + 1);
    }
  }

  /** The actions for the event at position k of a frame. */
  function EventActions(e: NormalizedEvent, ord: nat, sinks: nat, fails: (nat, nat) -> bool): seq<Action>
  {
    [UpdateMetrics(e)] + Writes(e, ord, sinks, fails)
  }

  /** The actions for consecutive runs of events are the runs' actions in turn. */
  lemma {:induction false} DeliverAppend(a: seq<NormalizedEvent>, b: seq<NormalizedEvent>, ord: nat, sinks: nat,
                                         fails: (nat, nat) -> bool)
    ensures Deliver(a + b, ord, sinks, fails) == Deliver(a, ord, sinks, fails) + Deliver(b, ord + |a|, sinks, fails)
  {
    if a == [] {
      assert a + b == b;
      assert [] + Deliver(b, ord, sinks, fails) == Deliver(b, ord, sinks, fails);
    } else {
      assert (a + b)[0] == a[0];
      assert (a + b)[1..] == a[1..] + b;
      DeliverAppend(a[1..], b, ord + 1, sinks, fails);
      AppendAssociates(EventActions(a[0], ord, sinks, fails), Deliver(a[1..], ord + 1, sinks, fails),
                       Deliver(b, ord + |a|, sinks, fails));
    }
  }

  /** For every event, in order, the metrics are updated once and then
      every sink gets a write attempt, in list order, whatever the earlier
      writes did: event k's actions come after those of the events before
      it and before those of the events after it. */
  lemma DeliverBlock(events: seq<NormalizedEvent>, ord: nat, sinks: nat, fails: (nat, nat) -> bool, k: nat)
    requires k < |events|
    ensures Deliver(events, ord, sinks, fails)
         == Deliver(events[..k], ord, sinks, fails)
            + EventActions(events[k], ord + k, sinks, fails)
            + Deliver(events[k + 1..], ord + k + 1, sinks, fails)
  {
    var rest := [events[k]] + events[k + 1..];
    assert events == events[..k] + rest;
    DeliverAppend(events[..k], rest, ord, sinks, fails);
    assert rest[0] == events[k] && rest[1..] == events[k + 1..];
    AppendAssociates(Deliver(events[..k], ord, sinks, fails), EventActions(events[k], ord + k, sinks, fails),
                     Deliver(events[k + 1..], ord + k + 1, sinks, fails));
  }

  /** An action with the outcome of a write forgotten. */
  function Attempt(a: Action): Action
  {
    if a.WriteSink? then a.(failed := false) else a
  }

  function Attempts(trace: seq<Action>): (r: seq<Action>)
    ensures |r| == |trace|
    ensures forall k :: 0 <= k < |trace| ==> r[k] == Attempt(trace[k])
  {
    seq(|trace|, k requires 0 <= k < |trace| => Attempt(trace[k]))
  }

  lemma AttemptsAppend(a: seq<Action>, b: seq<Action>)
    ensures Attempts(a + b) == Attempts(a) + Attempts(b)
  {
  }

  lemma {:induction false} DeliverAttempts(events: seq<NormalizedEvent>, ord: nat, sinks: nat,
                                           fails1: (nat, nat) -> bool, fails2: (nat, nat) -> bool)
    ensures Attempts(Deliver(events, ord, sinks, fails1)) == Attempts(Deliver(events, ord, sinks, fails2))
  {
    if events != [] {
      DeliverAttempts(events[1..], ord + 1, sinks, fails1, fails2);
      var e := events[0];
      var w1, w2 := Writes(e, ord, sinks, fails1), Writes(e, ord, sinks, fails2);
      WritesShape(e, ord, sinks, fails1);
      WritesShape(e, ord, sinks, fails2);
      assert Attempts(w1) == Attempts(w2);
      AttemptsAppend([UpdateMetrics(e)] + w1, Deliver(events[1..], ord + 1, sinks, fails1));
      AttemptsAppend([UpdateMetrics(e)] + w2, Deliver(events[1..], ord + 1, sinks, fails2));
      AttemptsAppend([UpdateMetrics(e)], w1);
      AttemptsAppend([UpdateMetrics(e)], w2);
    }
  }

  /** Which writes fail changes nothing but the recorded outcomes: the same
      updates and write attempts happen in the same order. */
  lemma {:induction false} FailuresAreIsolated(frames: seq<Frame>, norm: Normalize, sinks: nat,
                                               fails1: (nat, nat) -> bool, fails2: (nat, nat) -> bool, fi: nat, ord: nat)
    ensures Attempts(Process(frames, norm, sinks, fails1, fi, ord))
         == Attempts(Process(frames, norm, sinks, fails2, fi, ord))
  {
    if frames != [] {
      match norm(fi, frames[0])
      case Err(f) =>
      case Ok(events) =>
        FailuresAreIsolated(frames[1..], norm, sinks, fails1, fails2, fi + 1, ord + |events|);
        DeliverAttempts(events, ord, sinks, fails1, fails2);
        AttemptsAppend(Deliver(events, ord, sinks, fails1), Process(frames[1..], norm, sinks, fails1, fi + 1, ord + |events|));
        AttemptsAppend(Deliver(events, ord, sinks, fails2), Process(frames[1..], norm, sinks, fails2, fi + 1, ord + |events|));
    }
  }

  /** A frame that normalizes to no events causes no update and no write. */
  lemma EmptyFrameDoesNothing(frames: seq<Frame>, norm: Normalize, sinks: nat,
                              fails: (nat, nat) -> bool, fi: nat, ord: nat)
    requires frames != [] && norm(fi, frames[0]) == Ok([])
    ensures Process(frames, norm, sinks, fails, fi, ord) == Process(frames[1..], norm, sinks, fails, fi + 1, ord)
  {
    assert Deliver([], ord, sinks, fails) == [];
  }

  /** The first frame the normalizer fails on ends ingestion: the trace is
      that of the frames before it, then the stop, and later frames are
      never looked at. */
  lemma {:induction false} FaultStopsIngestion(frames: seq<Frame>, norm: Normalize, sinks: nat,
                                               fails: (nat, nat) -> bool, fi: nat, ord: nat, k: nat)
    requires k < |frames|
    requires forall m :: 0 <= m < k ==> norm(fi + m, frames[m]).Ok?
    requires norm(fi + k, frames[k]).Err?
    ensures Process(frames, norm, sinks, fails, fi, ord)
         == Process(frames[..k], norm, sinks, fails, fi, ord)
            + [StopIngestion(norm(fi + k, frames[k]).error)]
  {
    if k > 0 {
      assert norm(fi + 0, frames[0]).Ok?;
      var events := norm(fi, frames[0]).value;
      forall m | 0 <= m < k - 1
        ensures norm(fi + 1 + m, frames[1..][m]).Ok?
      {
        assert frames[1..][m] == frames[m + 1];
      }
      assert frames[1..][k - 1] == frames[k];
      FaultStopsIngestion(frames[1..], norm, sinks, fails, fi + 1, ord + |events|, k - 1);
      var pre := frames[..k];
      assert pre[1..] == frames[1..][..k - 1];
      assert pre[0] == frames[0];
      AppendAssociates(Deliver(events, ord, sinks, fails),
                       Process(pre[1..], norm, sinks, fails, fi + 1, ord + |events|),
                       [StopIngestion(norm(fi + k, frames[k]).error)]);
    }
  }

  // ---------------------------------------------------------------------
  // Shutdown
  // ---------------------------------------------------------------------

  /** A step of the `finally` block, after the tasks are cancelled. */
  datatype Closing = CloseSink(sink: nat, failed: bool) | FinalPrint | FinalExport(path: string, failed: bool)

  /** The export runs only for a non-empty path (`if csv_export_path:`). */
  predicate Exports(path: Option<string>)
  {
    path.Some? && path.value != []
  }

  /** Every sink is closed in list order whatever the earlier closes did,
      then the forced print, then the export when a path is configured. */
  method Shutdown(sinks: nat, closeFails: nat -> bool, exportPath: Option<string>, exportFails: bool)
    returns (trace: seq<Closing>)
    ensures |trace| == sinks + 1 + (if Exports(exportPath) then 1 else 0)
    ensures forall j :: 0 <= j < sinks ==> trace[j] == CloseSink(j, closeFails(j))
    ensures trace[sinks] == FinalPrint
    ensures Exports(exportPath) ==> trace[sinks + 1] == FinalExport(exportPath.value, exportFails)
  {
    trace := [];
    var j := 0;
    while j < sinks
      invariant 0 <= j <= sinks && |trace| == j
      invariant forall m :: 0 <= m < j ==> trace[m] == CloseSink(m, closeFails(m))
    {
      trace := trace + [CloseSink(j, closeFails(j))];
      j := j + 1;
    }
    trace := trace + [FinalPrint];
    if Exports(exportPath) {
      trace := trace + [FinalExport(exportPath.value, exportFails)];
    }
  }

  /** The last two steps on the metrics themselves: the forced
      `print_stats(force=True)` at clock `now` always reports, and the
      export, when a path is configured, yields the rows of every key. */
  method FinalReport(metrics: Rolling.RollingMetrics, now: real, exportPath: Option<string>, generatedAt: string)
    returns (line: Option<Rolling.Summary>, rows: Option<seq<Rolling.Row>>)
    modifies metrics`lastPrintTime
    ensures metrics.lastPrintTime == now
    ensures line == Rolling.Summarize(Rolling.Values(metrics.exToRecv), Rolling.Values(metrics.recvToDecode),
                                      Rolling.Values(metrics.decodeToProc), metrics.zeroRecvToDecode,
                                      metrics.zeroDecodeToProc, metrics.totalEvents, metrics.messageCounts)
    ensures rows.Some? <==> Exports(exportPath)
    ensures rows.Some? ==> Rolling.StrictlyAscending(Rolling.RowKeys(rows.value))
    ensures rows.Some? ==> forall k :: k in Rolling.RowKeys(rows.value) <==> k in metrics.latencyByKey || k in metrics.stalenessByKey
  {
    line := metrics.PrintStats(true, now);
    rows := None;
    if Exports(exportPath) {
      var r := metrics.ExportRows(generatedAt);
      rows := Some(r);
    }
  }
}
