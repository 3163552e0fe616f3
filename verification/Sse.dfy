/**
 The server-sent events of a streamed completion: which frames `event_stream` emits for
 each run of `handle_stream`, and what a client that follows the event-stream format
 reads back from them.
 */
module Sse {
  import opened Common
  import opened Routing
  import opened TwoTierCache
  import opened Orchestrator
  import opened Failover
  import opened Streaming
  import opened Outcomes

  /** What the generator hands over: a text chunk or the terminal result. */
  datatype Item = Chunk(text: string) | Terminal(result: Result)

  datatype ErrorType = RateLimit | Unavailable

  datatype Frame =
    | TextFrame(model: string, delta: string)
    | UsageFrame(model: string, finish: Option<string>, promptTokens: nat, completionTokens: nat, totalTokens: nat)
    | ErrorFrame(kind: ErrorType)
    | Done

  function ItemOf(): Effect -> seq<Item> {
    (e: Effect) => if e.Yielded? then [Chunk(e.chunk)] else if e.Finished? then [Terminal(e.result)] else []
  }

  /** The items that a run of `handle_stream` yields. */
  function Items(trace: seq<Effect>): seq<Item> {
    Collect(trace, ItemOf())
  }

  function FrameOf(model: string): Item -> seq<Frame> {
    (item: Item) =>
      match item
      case Chunk(text) => [TextFrame(model, text)]
      case Terminal(r) =>
        [UsageFrame(r.model, r.finish, r.answer.tokensIn, r.answer.tokensOut, r.answer.tokensIn + r.answer.tokensOut)]
  }

  function ErrorOf(x: Exception): ErrorType {
    if x.RateLimitExceeded? then RateLimit else Unavailable
  }

  /** The frames for the items of a run and the exception that ended it, if one did. */
  function Frames(items: seq<Item>, raised: Option<Exception>, model: string): seq<Frame> {
    Collect(items, FrameOf(model)) + (if raised.Some? then [ErrorFrame(ErrorOf(raised.value))] else []) + [Done]
  }

  /** `event_stream`. */
  method EventStream(items: seq<Item>, raised: Option<Exception>, model: string) returns (frames: seq<Frame>)
    ensures frames == Frames(items, raised, model)
  {
    frames := [];
    for i := 0 to |items|
      invariant frames == Collect(items[..i], FrameOf(model))
    {
      assert items[..i + 1] == items[..i] + [items[i]];
      CollectSnoc(items[..i], items[i], FrameOf(model));
      match items[i]
      case Chunk(text) => frames := frames + [TextFrame(model, text)];
      case Terminal(r) =>
        var tokensIn, tokensOut := r.answer.tokensIn, r.answer.tokensOut;
        frames := frames + [UsageFrame(r.model, r.finish, tokensIn, tokensOut, tokensIn + tokensOut)];
    }
    assert items[..|items|] == items;
    match raised {
      case Some(RateLimitExceeded) => frames := frames + [ErrorFrame(RateLimit)];
      case Some(NoBackendsAvailable) => frames := frames + [ErrorFrame(Unavailable)];
      case Some(AllBackendsUnavailable(_)) => frames := frames + [ErrorFrame(Unavailable)];
      case None =>
    }
    frames := frames + [Done];
  }

  // ----- the grammar of the frames -----

  function TextOfChunk(model: string): string -> seq<Frame> {
    (text: string) => [TextFrame(model, text)]
  }

  function TextFrames(model: string, texts: seq<string>): seq<Frame> {
    Collect(texts, TextOfChunk(model))
  }

  /** A trace without a terminal result yields its text, chunk by chunk. */
  lemma {:induction false} FramesOfText(trace: seq<Effect>, model: string)
    requires forall e :: e in trace ==> !e.Finished?
    ensures Collect(Items(trace), FrameOf(model)) == TextFrames(model, Delivered(trace))
  {
    if trace != [] {
      var front, e := Front(trace), Last(trace);
      assert e in trace;
      FramesOfText(front, model);
      NextFrame(Items(front), Delivered(front), e, model);
    }
  }

  lemma NextFrame(items: seq<Item>, texts: seq<string>, e: Effect, model: string)
    requires !e.Finished? && Collect(items, FrameOf(model)) == TextFrames(model, texts)
    ensures Collect(items + ItemOf()(e), FrameOf(model)) == TextFrames(model, texts + TextOf()(e))
  {
    if e.Yielded? {
      CollectSnoc(items, Chunk(e.chunk), FrameOf(model));
      CollectSnoc(texts, e.chunk, TextOfChunk(model));
    } else {
      assert items + [] == items && texts + [] == texts;
    }
  }

  lemma FramesOfTerminal(trace: seq<Effect>, result: Result, model: string)
    requires trace != [] && Last(trace) == Finished(result) && forall e :: e in Front(trace) ==> !e.Finished?
    ensures Collect(Items(trace), FrameOf(model))
         == TextFrames(model, Delivered(trace)) + FrameOf(model)(Terminal(result))
  {
    FramesOfText(Front(trace), model);
    CollectSnoc(Items(Front(trace)), Terminal(result), FrameOf(model));
    assert Items(trace) == Items(Front(trace)) + [Terminal(result)];
    assert Delivered(trace) == Delivered(Front(trace));
  }

  function RaisedBy(o: Outcome): Option<Exception> {
    match o
    case Raised(x) => Some(x)
    case Returned(_) => None
  }

  /** The one frame between the text and the end: usage after a result, an error after an exception. */
  function ClosingFrame(o: Outcome): Frame {
    match o
    case Raised(x) => ErrorFrame(if x == RateLimitExceeded then RateLimit else Unavailable)
    case Returned(r) =>
      UsageFrame(r.model, r.finish, r.answer.tokensIn, r.answer.tokensOut, r.answer.tokensIn + r.answer.tokensOut)
  }

  /**
   For every run of `handle_stream` the frames are the delivered text, one closing frame and one
   Done; after a usage frame the deltas concatenate to the content of the result, whose tokens it counts.
   */
  lemma FrameGrammar(env: Env, req: Request)
    requires Routes(env)
    ensures var r := Handle(env, req, true);
            && Frames(Items(r.trace), RaisedBy(r.outcome), req.model)
               == TextFrames(req.model, Delivered(r.trace)) + [ClosingFrame(r.outcome), Done]
            && (ClosingFrame(r.outcome) == ErrorFrame(RateLimit) <==> !env.admitted)
            && (r.outcome.Returned? ==> Spells(r.outcome.result.answer.content, Delivered(r.trace)))
  {
    StreamNeverSplices(env, req);
    RunGrammar(Handle(env, req, true), req.model);
    OutcomeExactly(env, req, true);
  }

  lemma RunGrammar(r: Run, model: string)
    requires TerminatesRightly(r)
    ensures Frames(Items(r.trace), RaisedBy(r.outcome), model)
         == TextFrames(model, Delivered(r.trace)) + [ClosingFrame(r.outcome), Done]
  {
    match r.outcome
    case Returned(result) =>
      FramesOfTerminal(r.trace, result, model);
      FramesEnd(Items(r.trace), TextFrames(model, Delivered(r.trace)), r.outcome, model);
    case Raised(_) =>
      FramesOfText(r.trace, model);
      FramesEnd(Items(r.trace), TextFrames(model, Delivered(r.trace)), r.outcome, model);
  }

  lemma FramesEnd(items: seq<Item>, texts: seq<Frame>, o: Outcome, model: string)
    requires Collect(items, FrameOf(model)) == if o.Returned? then texts + [ClosingFrame(o)] else texts
    ensures Frames(items, RaisedBy(o), model) == texts + [ClosingFrame(o), Done]
  {
    assert texts + [ClosingFrame(o)] + [Done] == texts + [ClosingFrame(o), Done];
    if o.Returned? {
      assert Collect(items, FrameOf(model)) + [] == Collect(items, FrameOf(model));
    }
  }

  // ----- the wire: section 9.2 of the WHATWG HTML Standard -----

  predicate OneLine(s: string) {
    forall i :: 0 <= i < |s| ==> s[i] != '\n' && s[i] != '\r'
  }

  /** `data: <payload>` and a blank line. */
  function Wire(payload: string): string {
    "data: " + payload + "\n\n"
  }

  function Encode(payloads: seq<string>): string {
    if payloads == [] then [] else Wire(payloads[0]) + Encode(payloads[1..])
  }

  /** The length of the first line, which ends at CR, LF or the end of the input. */
  function LineLength(s: string): (n: nat)
    ensures n <= |s|
  {
    if s == [] || s[0] == '\n' || s[0] == '\r' then 0 else 1 + LineLength(s[1..])
  }

  /** The input after the first line and its CR, LF or CR LF. */
  function AfterLine(s: string, n: nat): (rest: string)
    requires n < |s|
    ensures |rest| < |s|
  {
    if s[n] == '\r' && n + 1 < |s| && s[n + 1] == '\n' then s[n + 2..] else s[n + 1..]
  }

  function ColonAt(line: string): (n: nat)
    ensures n <= |line|
  {
    if line == [] || line[0] == ':' then 0 else 1 + ColonAt(line[1..])
  }

  /** What follows the colon, without one leading space. */
  function FieldValue(line: string): string {
    var n := ColonAt(line);
    if n == |line| then []
    else if n + 1 < |line| && line[n + 1] == ' ' then line[n + 2..]
    else line[n + 1..]
  }

  /** A line other than a blank one: a data field adds to the buffer; comments and other fields do not. */
  function Absorb(line: string, data: string): string {
    if line[..ColonAt(line)] == "data" then data + FieldValue(line) + "\n" else data
  }

  /** The data of the events that a client dispatches; an event without its blank line is dropped. */
  function Decode(s: string, data: string): seq<string>
    decreases |s|
  {
    var n := LineLength(s);
    if n == |s| then []
    else
      var rest := AfterLine(s, n);
      if n > 0 then Decode(rest, Absorb(s[..n], data))
      else if data == [] then Decode(rest, [])
      else [data[..|data| - 1]] + Decode(rest, [])
  }

  lemma {:induction false} LineIsWhole(line: string, rest: string)
    requires OneLine(line)
    ensures LineLength(line + ("\n" + rest)) == |line|
  {
    if line == [] {
      assert line + ("\n" + rest) == "\n" + rest;
    } else {
      LineIsWhole(line[1..], rest);
      assert (line + ("\n" + rest))[1..] == line[1..] + ("\n" + rest);
    }
  }

  lemma DataLine(payload: string)
    ensures Absorb("data: " + payload, []) == payload + "\n"
  {
    var line := "data: " + payload;
    assert ColonAt(line[4..]) == 0;
    assert line[3..][1..] == line[4..] && ColonAt(line[3..]) == 1;
    assert line[2..][1..] == line[3..] && ColonAt(line[2..]) == 2;
    assert line[1..][1..] == line[2..] && ColonAt(line[1..]) == 3;
    assert ColonAt(line) == 4;
    assert line[..4] == "data";
    assert line[6..] == payload;
    assert [] + payload + "\n" == payload + "\n";
  }

  /** One framed payload is one dispatched event. */
  lemma DecodeWire(payload: string, rest: string)
    requires OneLine(payload)
    ensures Decode(Wire(payload) + rest, []) == [payload] + Decode(rest, [])
  {
    var line, blank := "data: " + payload, "\n" + rest;
    var s := line + ("\n" + blank);
    assert Wire(payload) + rest == s;
    LineIsWhole(line, blank);
    assert s[..|line|] == line && AfterLine(s, |line|) == blank;
    DataLine(payload);
    assert Decode(s, []) == Decode(blank, payload + "\n");
    LineIsWhole([], rest);
    assert [] + ("\n" + rest) == blank;
    assert AfterLine(blank, 0) == rest;
    assert (payload + "\n")[..|payload + "\n"| - 1] == payload;
  }

  /** A client reads back exactly the payloads that were framed. */
  lemma {:induction false} WireRoundTrip(payloads: seq<string>)
    requires forall p :: p in payloads ==> OneLine(p)
    ensures Decode(Encode(payloads), []) == payloads
  {
    if payloads != [] {
      DecodeWire(payloads[0], Encode(payloads[1..]));
      WireRoundTrip(payloads[1..]);
      assert payloads == [payloads[0]] + payloads[1..];
    }
  }

  /** The JSON printer prints every frame as one line that the parser reads back, and never the end mark. */
  ghost predicate JsonCodec(json: Frame -> string, parse: string -> Frame) {
    forall f: Frame :: !f.Done? ==> OneLine(json(f)) && json(f) != "[DONE]" && parse(json(f)) == f
  }

  function PayloadOf(json: Frame -> string): Frame -> seq<string> {
    (f: Frame) => [if f.Done? then "[DONE]" else json(f)]
  }

  function Payloads(frames: seq<Frame>, json: Frame -> string): seq<string> {
    Collect(frames, PayloadOf(json))
  }

  /** What the generator sends. */
  function Sent(frames: seq<Frame>, json: Frame -> string): string {
    Encode(Payloads(frames, json))
  }

  function FrameRead(parse: string -> Frame): string -> seq<Frame> {
    (payload: string) => [if payload == "[DONE]" then Done else parse(payload)]
  }

  /** What a client reads from the bytes of a response. */
  function Received(wire: string, parse: string -> Frame): seq<Frame> {
    Collect(Decode(wire, []), FrameRead(parse))
  }

  lemma {:induction false} PayloadsReadBack(frames: seq<Frame>, json: Frame -> string, parse: string -> Frame)
    requires JsonCodec(json, parse)
    ensures Collect(Payloads(frames, json), FrameRead(parse)) == frames
  {
    if frames != [] {
      var front, f := Front(frames), Last(frames);
      PayloadsReadBack(front, json, parse);
      CollectSnoc(Payloads(front, json), if f.Done? then "[DONE]" else json(f), FrameRead(parse));
      assert frames == front + [f];
    }
  }

  /** A client receives exactly the frames that were sent. */
  lemma FramesRoundTrip(frames: seq<Frame>, json: Frame -> string, parse: string -> Frame)
    requires JsonCodec(json, parse)
    ensures Received(Sent(frames, json), parse) == frames
  {
    forall p | p in Payloads(frames, json) ensures OneLine(p) {
      var k := CollectMember(frames, PayloadOf(json), p);
      assert OneLine("[DONE]");
    }
    WireRoundTrip(Payloads(frames, json));
    PayloadsReadBack(frames, json, parse);
  }

  /**
   A client of any streamed completion receives the deltas in order, then the one closing frame, then
   Done last; the deltas of a completion that ends normally concatenate to its content.
   */
  lemma ClientReadsGrammar(env: Env, req: Request, json: Frame -> string, parse: string -> Frame)
    requires Routes(env) && JsonCodec(json, parse)
    ensures var r := Handle(env, req, true);
            && Received(Sent(Frames(Items(r.trace), RaisedBy(r.outcome), req.model), json), parse)
               == TextFrames(req.model, Delivered(r.trace)) + [ClosingFrame(r.outcome), Done]
            && (r.outcome.Returned? ==> Spells(r.outcome.result.answer.content, Delivered(r.trace)))
  {
    var r := Handle(env, req, true);
    FrameGrammar(env, req);
    FramesRoundTrip(Frames(Items(r.trace), RaisedBy(r.outcome), req.model), json, parse);
  }
}
