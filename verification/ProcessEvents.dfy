/** Folding a process's event frames into one result. Source: internal/sandbox/client.go. */
module ProcessEvents {
  import opened Wrappers
  import opened ConnectFrames

  datatype Terminal = Terminal(code: string, message: string)
  datatype Output = Output(stdout: string, stderr: string)
  datatype End = End(exitCode: int, status: string, error: string)

  /** What a frame's payload is: no JSON, as the empty payload is none; JSON that does not fit
      an event; or an event, where `terminal` is its top-level error. */
  datatype View =
    | NotJson
    | OtherShape
    | Decoded(terminal: Option<Terminal>, output: Option<Output>, end: Option<End>)

  datatype Frame = Frame(raw: Bytes, view: View)

  datatype Summary = Summary(
    stdout: string, stderr: string, exitCode: int, status: string, error: string, events: seq<Bytes>)

  /** Standard base64 decoding, None for text that is not base64. */
  type Base64 = string -> Option<string>

  const BLANK := Summary([], [], 0, [], [], [])

  function Digits(n: nat): (r: string)
    ensures r != []
  {
    if n < 10 then ["0123456789"[n]] else Digits(n / 10) + ["0123456789"[n % 10]]
  }

  function Decimal(n: int): string {
    if n < 0 then ['-'] + Digits(-n) else Digits(n)
  }

  /** `decodeProcessOutput`: text that does not decode is kept as it is. */
  function Chunk(b64: Base64, encoded: string): string {
    if encoded == [] then []
    else match b64(encoded)
      case None => encoded
      case Some(text) => text
  }

  function TerminalText(t: Terminal): string {
    t.code + ": " + t.message
  }

  function WithTerminal(r: Summary, t: Terminal): Summary {
    r.(error := TerminalText(t), status := TerminalText(t), exitCode := if r.exitCode == 0 then 1 else r.exitCode)
  }

  function WithEnd(r: Summary, e: End): Summary {
    var exitCode := if e.error != [] && e.exitCode == 0 then 1 else e.exitCode;
    var status := if e.status != [] then e.status else e.error;
    r.(exitCode := exitCode,
       error := if e.error != [] then e.error else r.error,
       status := if status == [] then "exit code " + Decimal(exitCode) else status)
  }

  function Step(b64: Base64, r: Summary, f: Frame): Summary {
    var r := r.(events := r.events + [f.raw]);
    if !f.view.Decoded? then r
    else
      var r := if f.view.terminal.Some? then WithTerminal(r, f.view.terminal.value) else r;
      var r := if f.view.output.None? then r else
        r.(stdout := r.stdout + Chunk(b64, f.view.output.value.stdout),
           stderr := r.stderr + Chunk(b64, f.view.output.value.stderr));
      if f.view.end.Some? then WithEnd(r, f.view.end.value) else r
  }

  function Fold(b64: Base64, r: Summary, frames: seq<Frame>): Summary {
    if frames == [] then r
    else Step(b64, Fold(b64, r, frames[..|frames| - 1]), frames[|frames| - 1])
  }

  datatype ResponseError = BadStatus | EmptyResponse | NoValidFrames | EncodeFailed

  predicate AllJson(frames: seq<Frame>) {
    forall i :: 0 <= i < |frames| ==> !frames[i].view.NotJson?
  }

  /** `aggregateProcessFrames`: one pass that updates the result's fields, then the encoding,
      which checks every frame kept as an event once more. */
  method AggregateProcessFrames(b64: Base64, frames: seq<Frame>) returns (r: Result<Summary, ResponseError>)
    ensures r == Aggregate(b64, frames)
    ensures r.Ok? <==> AllJson(frames)
    ensures r.Ok? ==> r.value.events == Raws(frames) && r.value.error == LastError(frames)
    ensures r.Ok? ==> r.value.stdout == Stdout(b64, frames) && r.value.stderr == Stderr(b64, frames)
  {
    var result := BLANK;
    for i := 0 to |frames|
      invariant result == Fold(b64, BLANK, frames[..i])
    {
      var frame := frames[i];
      assert frames[..i + 1][..i] == frames[..i];
      result := result.(events := result.events + [frame.raw]);
      if !frame.view.Decoded? {
        continue;
      }
      if frame.view.terminal.Some? {
        result := result.(error := TerminalText(frame.view.terminal.value));
        result := result.(status := result.error);
        if result.exitCode == 0 {
          result := result.(exitCode := 1);
        }
      }
      if frame.view.output.Some? {
        result := result.(stdout := result.stdout + Chunk(b64, frame.view.output.value.stdout));
        result := result.(stderr := result.stderr + Chunk(b64, frame.view.output.value.stderr));
      }
      if frame.view.end.Some? {
        var end := frame.view.end.value;
        result := result.(exitCode := end.exitCode, status := end.status);
        if result.status == [] {
          result := result.(status := end.error);
        }
        if end.error != [] {
          result := result.(error := end.error);
          if result.exitCode == 0 {
            result := result.(exitCode := 1);
          }
        }
        if result.status == [] {
          result := result.(status := "exit code " + Decimal(result.exitCode));
        }
      }
    }
    assert frames[..|frames|] == frames;
    r := EncodeResult(frames, result);
    FoldOutputs(b64, frames);
    FoldError(b64, frames);
  }

  /** `json.Marshal` of the result: it validates the raw events, the first bad one ends it. */
  method EncodeResult(frames: seq<Frame>, result: Summary) returns (r: Result<Summary, ResponseError>)
    ensures r == if AllJson(frames) then Ok(result) else Err(EncodeFailed)
  {
    for i := 0 to |frames|
      invariant AllJson(frames[..i])
    {
      if frames[i].view.NotJson? {
        return Err(EncodeFailed);
      }
    }
    return Ok(result);
  }

  /** What one frame that is not JSON costs: the whole result. */
  function Aggregate(b64: Base64, frames: seq<Frame>): Result<Summary, ResponseError> {
    if AllJson(frames) then Ok(Fold(b64, BLANK, frames)) else Err(EncodeFailed)
  }

  /** Aggregation over a stream in two parts: it succeeds exactly when both parts do, and then it
      continues the first part's result with the second. */
  lemma AggregateConcat(b64: Base64, a: seq<Frame>, b: seq<Frame>)
    ensures Aggregate(b64, a + b).Ok? <==> Aggregate(b64, a).Ok? && Aggregate(b64, b).Ok?
    ensures Aggregate(b64, a + b).Ok? ==>
      Aggregate(b64, a + b).value == Fold(b64, Aggregate(b64, a).value, b)
  {
    FoldConcat(b64, BLANK, a, b);
    if AllJson(a + b) {
      forall i | 0 <= i < |a| ensures !a[i].view.NotJson? { assert (a + b)[i] == a[i]; }
      forall i | 0 <= i < |b| ensures !b[i].view.NotJson? { assert (a + b)[|a| + i] == b[i]; }
    }
  }

  // ---------------------------------------------------------------------------
  // Compositionality and outputs

  /** Aggregating a followed by b is continuing a's result with b. */
  lemma {:induction false} FoldConcat(b64: Base64, r: Summary, a: seq<Frame>, b: seq<Frame>)
    ensures Fold(b64, r, a + b) == Fold(b64, Fold(b64, r, a), b)
  {
    if b == [] {
      assert a + b == a;
    } else {
      assert (a + b)[..|a + b| - 1] == a + b[..|b| - 1];
      FoldConcat(b64, r, a, b[..|b| - 1]);
    }
  }

  function Raws(frames: seq<Frame>): seq<Bytes> {
    seq(|frames|, i requires 0 <= i < |frames| => frames[i].raw)
  }

  function OutputOf(f: Frame): Output {
    if f.view.Decoded? && f.view.output.Some? then f.view.output.value else Output([], [])
  }

  function Stdout(b64: Base64, frames: seq<Frame>): string {
    if frames == [] then [] else Chunk(b64, OutputOf(frames[0]).stdout) + Stdout(b64, frames[1..])
  }

  function Stderr(b64: Base64, frames: seq<Frame>): string {
    if frames == [] then [] else Chunk(b64, OutputOf(frames[0]).stderr) + Stderr(b64, frames[1..])
  }

  lemma {:induction false} OutputSnoc(b64: Base64, frames: seq<Frame>, f: Frame)
    ensures Stdout(b64, frames + [f]) == Stdout(b64, frames) + Chunk(b64, OutputOf(f).stdout)
    ensures Stderr(b64, frames + [f]) == Stderr(b64, frames) + Chunk(b64, OutputOf(f).stderr)
  {
    if frames == [] {
      assert frames + [f] == [f] && [f][1..] == [];
    } else {
      assert (frames + [f])[1..] == frames[1..] + [f];
      OutputSnoc(b64, frames[1..], f);
      ConcatAssoc(Chunk(b64, OutputOf(frames[0]).stdout), Stdout(b64, frames[1..]), Chunk(b64, OutputOf(f).stdout));
      ConcatAssoc(Chunk(b64, OutputOf(frames[0]).stderr), Stderr(b64, frames[1..]), Chunk(b64, OutputOf(f).stderr));
    }
  }

  lemma StepOutputs(b64: Base64, r: Summary, f: Frame)
    ensures Step(b64, r, f).stdout == r.stdout + Chunk(b64, OutputOf(f).stdout)
    ensures Step(b64, r, f).stderr == r.stderr + Chunk(b64, OutputOf(f).stderr)
    ensures Step(b64, r, f).events == r.events + [f.raw]
  {
    assert r.stdout + [] == r.stdout && r.stderr + [] == r.stderr;
  }

  /** Outputs are the decoded chunks in order; every frame is kept as an event. */
  lemma {:induction false} FoldOutputs(b64: Base64, frames: seq<Frame>)
    ensures Fold(b64, BLANK, frames).stdout == Stdout(b64, frames)
    ensures Fold(b64, BLANK, frames).stderr == Stderr(b64, frames)
    ensures Fold(b64, BLANK, frames).events == Raws(frames)
  {
    if frames != [] {
      var init, last := frames[..|frames| - 1], frames[|frames| - 1];
      FoldOutputs(b64, init);
      assert frames == init + [last];
      OutputSnoc(b64, init, last);
      StepOutputs(b64, Fold(b64, BLANK, init), last);
      assert Raws(frames) == Raws(init) + [last.raw];
    }
  }

  function Flatten(chunks: seq<string>): string {
    if chunks == [] then [] else chunks[0] + Flatten(chunks[1..])
  }

  /** `encode` is base64 as the process side uses it: nothing for nothing, and decodable. */
  ghost predicate Encodes(encode: string -> string, b64: Base64) {
    forall text :: if text == [] then encode(text) == [] else encode(text) != [] && b64(encode(text)) == Some(text)
  }

  /** The frames of a process that wrote these chunks, each `(stdout, stderr)`. */
  function DataFrames(encode: string -> string, written: seq<(string, string)>): (r: seq<Frame>)
    ensures |r| == |written|
  {
    seq(|written|, i requires 0 <= i < |written| =>
      Frame([], Decoded(None, Some(Output(encode(written[i].0), encode(written[i].1))), None)))
  }

  function Firsts(written: seq<(string, string)>): seq<string> {
    seq(|written|, i requires 0 <= i < |written| => written[i].0)
  }

  function Seconds(written: seq<(string, string)>): seq<string> {
    seq(|written|, i requires 0 <= i < |written| => written[i].1)
  }

  /** What a process wrote to its two outputs, in chunks sent as base64, is what is reported. */
  lemma {:induction false} OutputRoundTrip(b64: Base64, encode: string -> string, written: seq<(string, string)>)
    requires Encodes(encode, b64)
    ensures Fold(b64, BLANK, DataFrames(encode, written)).stdout == Flatten(Firsts(written))
    ensures Fold(b64, BLANK, DataFrames(encode, written)).stderr == Flatten(Seconds(written))
  {
    FoldOutputs(b64, DataFrames(encode, written));
    OutputsDecode(b64, encode, written);
  }

  lemma {:induction false} OutputsDecode(b64: Base64, encode: string -> string, written: seq<(string, string)>)
    requires Encodes(encode, b64)
    ensures Stdout(b64, DataFrames(encode, written)) == Flatten(Firsts(written))
    ensures Stderr(b64, DataFrames(encode, written)) == Flatten(Seconds(written))
  {
    if written != [] {
      OutputsDecode(b64, encode, written[1..]);
      assert DataFrames(encode, written)[1..] == DataFrames(encode, written[1..]);
      assert Firsts(written)[1..] == Firsts(written[1..]) && Seconds(written)[1..] == Seconds(written[1..]);
    }
  }

  /** Output that is not base64 is reported as it came. */
  lemma PlainOutputIsKept(b64: Base64, text: string)
    requires b64(text) == None
    ensures var f := Frame([], Decoded(None, Some(Output(text, [])), None));
      Fold(b64, BLANK, [f]).stdout == text && Fold(b64, BLANK, [f]).stderr == []
  {
    var f := Frame([], Decoded(None, Some(Output(text, [])), None));
    assert [f][..0] == [];
    assert Fold(b64, BLANK, [f]) == Step(b64, BLANK, f);
  }

  /** The number a decimal numeral stands for. */
  function Numeral(digits: string): int {
    if digits == [] then 0 else Numeral(digits[..|digits| - 1]) * 10 + (digits[|digits| - 1] as int - '0' as int)
  }

  lemma {:induction false} DigitsAreDecimal(n: nat)
    ensures Numeral(Digits(n)) == n
    ensures forall c :: c in Digits(n) ==> '0' <= c <= '9'
    ensures Digits(n)[0] == '0' ==> n == 0
  {
    if n < 10 {
      assert Digits(n)[..0] == [];
    } else {
      DigitsAreDecimal(n / 10);
      assert Digits(n)[..|Digits(n)| - 1] == Digits(n / 10);
    }
  }

  // ---------------------------------------------------------------------------
  // Error precedence

  /** A frame that decides how the process ended. */
  predicate IsControl(f: Frame) {
    f.view.Decoded? && (f.view.terminal.Some? || f.view.end.Some?)
  }

  /** The error a frame carries; an end event's error wins over the top-level one. */
  function ErrorText(f: Frame): string {
    if !f.view.Decoded? then []
    else if f.view.end.Some? && f.view.end.value.error != [] then f.view.end.value.error
    else if f.view.terminal.Some? then TerminalText(f.view.terminal.value)
    else []
  }

  /** The error carried by the last frame that carries one. */
  function LastError(frames: seq<Frame>): string {
    if frames == [] then []
    else if ErrorText(frames[|frames| - 1]) != [] then ErrorText(frames[|frames| - 1])
    else LastError(frames[..|frames| - 1])
  }

  function LastControl(frames: seq<Frame>): (r: Option<nat>)
    ensures r.Some? ==> r.value < |frames| && IsControl(frames[r.value])
    ensures forall i :: (if r.Some? then r.value + 1 else 0) <= i < |frames| ==> !IsControl(frames[i])
  {
    if frames == [] then None
    else if IsControl(frames[|frames| - 1]) then Some(|frames| - 1)
    else LastControl(frames[..|frames| - 1])
  }

  /** The reported error is the last one carried, however the process ended afterwards. */
  lemma {:induction false} FoldError(b64: Base64, frames: seq<Frame>)
    ensures Fold(b64, BLANK, frames).error == LastError(frames)
  {
    if frames != [] {
      FoldError(b64, frames[..|frames| - 1]);
    }
  }

  /** Exit code and status are decided by the last control frame; a top-level error alone keeps
      an earlier non-zero exit code. */
  lemma {:induction false} FoldEnding(b64: Base64, frames: seq<Frame>)
    ensures LastControl(frames).None? ==>
      Fold(b64, BLANK, frames).exitCode == 0 && Fold(b64, BLANK, frames).status == []
    ensures LastControl(frames).Some? ==>
      var i, r := LastControl(frames).value, Fold(b64, BLANK, frames);
      var view, before := frames[i].view, Fold(b64, BLANK, frames[..i]);
      if view.end.None? then
        && r.status == TerminalText(view.terminal.value)
        && r.exitCode == (if before.exitCode == 0 then 1 else before.exitCode)
      else
        && r.exitCode ==
             (if view.end.value.exitCode == 0 && view.end.value.error != [] then 1 else view.end.value.exitCode)
        && (view.end.value.status != [] ==> r.status == view.end.value.status)
        && (view.end.value.status == [] && view.end.value.error != [] ==> r.status == view.end.value.error)
        && (view.end.value.status == [] && view.end.value.error == [] ==>
             r.status == "exit code " + Decimal(r.exitCode))
  {
    if frames != [] {
      var init, last := frames[..|frames| - 1], frames[|frames| - 1];
      if !IsControl(last) {
        FoldEnding(b64, init);
        if LastControl(init).Some? {
          assert init[..LastControl(init).value] == frames[..LastControl(init).value];
        }
      }
    }
  }

  /** A result that shows the failure in all three places. */
  predicate ShowsFailure(r: Summary) {
    r.exitCode != 0 && r.error != [] && r.status != []
  }

  /** When a failure shows: the last control frame is a top-level error alone, or an end event
      with an error, or an end event with a non-zero exit code after some error. */
  lemma FailureShown(b64: Base64, frames: seq<Frame>)
    ensures ShowsFailure(Fold(b64, BLANK, frames)) <==>
      LastControl(frames).Some? &&
      var end := frames[LastControl(frames).value].view.end;
      end.None? || end.value.error != [] || (end.value.exitCode != 0 && LastError(frames) != [])
  {
    FoldError(b64, frames);
    FoldEnding(b64, frames);
    if LastControl(frames).Some? && ErrorText(frames[LastControl(frames).value]) != [] {
      LastErrorReaches(frames, LastControl(frames).value);
    }
  }

  /** When no frame has both a top-level error and an end event, a last control frame that
      carries an error always shows as a failure. */
  lemma LastErrorShows(b64: Base64, frames: seq<Frame>)
    requires forall f :: f in frames && f.view.Decoded? ==> f.view.terminal.None? || f.view.end.None?
    requires LastControl(frames).Some? && ErrorText(frames[LastControl(frames).value]) != []
    ensures ShowsFailure(Fold(b64, BLANK, frames))
  {
    FailureShown(b64, frames);
    assert frames[LastControl(frames).value] in frames;
  }

  /** A frame with both can report an error next to exit code 0. */
  lemma BothInOneFrameHidesFailure(b64: Base64)
    ensures var f := Frame([], Decoded(Some(Terminal("canceled", "stop")), None, Some(End(0, [], []))));
      var r := Fold(b64, BLANK, [f]);
      r.error == "canceled: stop" && r.exitCode == 0 && r.status == "exit code 0"
  {
    var f := Frame([], Decoded(Some(Terminal("canceled", "stop")), None, Some(End(0, [], []))));
    assert [f][..0] == [];
    assert Fold(b64, BLANK, [f]) == Step(b64, BLANK, f);
    assert Decimal(0) == "0";
    assert "canceled" + ": " + "stop" == "canceled: stop";
    assert "exit code " + "0" == "exit code 0";
  }

  lemma {:induction false} LastErrorReaches(frames: seq<Frame>, i: nat)
    requires i < |frames| && ErrorText(frames[i]) != []
    ensures LastError(frames) != []
  {
    if ErrorText(frames[|frames| - 1]) == [] {
      assert frames[..|frames| - 1][i] == frames[i];
      LastErrorReaches(frames[..|frames| - 1], i);
    }
  }

  // ---------------------------------------------------------------------------
  // The whole foreground path: limit, decode, aggregate

  const BODY_LIMIT: nat := 16 * 1024 * 1024

  function Views(view: Bytes -> View, raws: seq<Bytes>): seq<Frame> {
    seq(|raws|, i requires 0 <= i < |raws| => Frame(raws[i], view(raws[i])))
  }

  /** The non-background part of `processConnectRequestAsUser` after the response arrived;
      `blank` tells a body of white space. */
  function Respond(b64: Base64, view: Bytes -> View, blank: Bytes -> bool, success: bool, data: Bytes)
    : Result<Summary, ResponseError>
  {
    var body := BodyOf(data);
    if !success then Err(BadStatus)
    else if Decode(body) == [] then (if blank(body) then Err(EmptyResponse) else Err(NoValidFrames))
    else Aggregate(b64, Views(view, Decode(body)))
  }

  /** The bytes of a response that are read. */
  function BodyOf(data: Bytes): Bytes {
    if |data| > BODY_LIMIT then data[..BODY_LIMIT] else data
  }

  lemma ViewsAreJson(view: Bytes -> View, raws: seq<Bytes>)
    ensures AllJson(Views(view, raws)) <==> forall raw :: raw in raws ==> !view(raw).NotJson?
  {
    if AllJson(Views(view, raws)) {
      forall raw | raw in raws ensures !view(raw).NotJson? {
        var i :| 0 <= i < |raws| && raws[i] == raw;
        assert !Views(view, raws)[i].view.NotJson?;
      }
    }
  }

  /** A response is answered exactly when it was successful, starts with a frame, and every frame
      within the limit is JSON. The answer reports an initial part of the frames that were sent,
      all of them when the body is within the limit; nothing is invented, reordered or dropped
      in between. */
  lemma RespondReportsFrames(b64: Base64, view: Bytes -> View, blank: Bytes -> bool, success: bool, data: Bytes)
    ensures Respond(b64, view, blank, success, data).Ok? <==>
      && success && Decode(BodyOf(data)) != []
      && forall payload :: payload in Decode(BodyOf(data)) ==> !view(payload).NotJson?
    ensures var r := Respond(b64, view, blank, success, data);
      r.Ok? ==> r.value.events == Decode(BodyOf(data)) && r.value.events <= Decode(data)
    ensures BodyOf(data) <= data && |BodyOf(data)| == if |data| <= 16_777_216 then |data| else 16_777_216
  {
    var body := BodyOf(data);
    var payloads := Decode(body);
    FoldOutputs(b64, Views(view, payloads));
    assert Raws(Views(view, payloads)) == payloads;
    ViewsAreJson(view, payloads);
    if |data| > BODY_LIMIT {
      assert data == body + data[BODY_LIMIT..];
      DecodeExtends(body, data[BODY_LIMIT..]);
    }
  }

  /** One frame that is not JSON loses the output of all others: sent with an empty frame
      anywhere among them, whatever frames there are yield an error. */
  lemma EmptyFrameLosesTheResult(b64: Base64, view: Bytes -> View, blank: Bytes -> bool,
                                 before: seq<Bytes>, after: seq<Bytes>)
    requires view([]) == NotJson
    requires forall i :: 0 <= i < |before| ==> |before[i]| < TWO32
    requires forall i :: 0 <= i < |after| ==> |after[i]| < TWO32
    requires |EncodeAll(before + [[]] + after)| <= BODY_LIMIT
    ensures Respond(b64, view, blank, true, EncodeAll(before + [[]] + after)) == Err(EncodeFailed)
  {
    var payloads := before + [[]] + after;
    RoundTripExact(payloads);
    assert payloads[|before|] == [];
    assert Views(view, payloads)[|before|].view == NotJson;
  }
}
