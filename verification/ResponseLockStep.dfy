/** The header and body states of the response parser, and why what holds of the request parser there holds of
    it too. */
module ResponseLockStep {
  import opened Wrappers
  import opened Ascii
  import M = RequestMachine
  import Properties = RequestProperties
  import Text = RequestText
  import Body = RequestBody

  datatype Response = Response(
    versionMajor: nat,
    versionMinor: nat,
    headers: seq<M.Header>,
    content: Bytes,
    keepAlive: bool)

  datatype Parser = Parser(
    state: M.State,
    contentSize: nat,
    chunkSizeStr: string,
    chunkSize: nat,
    chunked: bool,
    resp: Response)

  datatype Stepped = Stepped(parser: Parser, result: M.ParseResult)

  function To(p: Parser, state: M.State): Stepped {
    Stepped(p.(state := state), M.ParsingIncompleted)
  }

  function Fail(p: Parser): Stepped {
    Stepped(p, M.ParsingError)
  }

  function ToIf(p: Parser, b: bool, state: M.State): Stepped {
    if b then To(p, state) else Fail(p)
  }

  function WithLast(p: Parser, h: M.Header): Parser
    requires p.resp.headers != []
  {
    p.(resp := p.resp.(headers := p.resp.headers[|p.resp.headers| - 1 := h]))
  }

  function Last(p: Parser): M.Header
    requires p.resp.headers != []
  {
    p.resp.headers[|p.resp.headers| - 1]
  }

  /** The end of a header line; every response may have a body. */
  function Noted(p: Parser): Parser
    requires p.resp.headers != []
  {
    var h := Last(p);
    if EqualNoCase(h.name, "Content-Length") then p.(contentSize := ToSize(Atoi(h.value)))
    else if EqualNoCase(h.name, "Transfer-Encoding") && EqualNoCase(h.value, "chunked") then p.(chunked := true)
    else p
  }

  function StepHeader(p: Parser, c: char): Stepped {
    match p.state
    case HeaderLineStart =>
      if c == '\r' then To(p, M.ExpectingNewline_3)
      else if p.resp.headers != [] && IsBlank(c) then To(p, M.HeaderLws)
      else if IsToken(c) then To(p.(resp := p.resp.(headers := p.resp.headers + [M.Header([c], "")])), M.HeaderName)
      else Fail(p)
    case HeaderLws =>
      if c == '\r' then To(p, M.ExpectingNewline_2)
      else if IsBlank(c) then To(p, p.state)
      else if IsControl(c) || p.resp.headers == [] then Fail(p)
      else To(WithLast(p, Last(p).(value := Last(p).value + [c])), M.HeaderValue)
    case HeaderName =>
      if c == ':' then To(p, M.SpaceBeforeHeaderValue)
      else if IsToken(c) && p.resp.headers != [] then To(WithLast(p, Last(p).(name := Last(p).name + [c])), p.state)
      else Fail(p)
    case SpaceBeforeHeaderValue => ToIf(p, c == ' ', M.HeaderValue)
    case HeaderValue =>
      if p.resp.headers == [] then Fail(p)
      else if c == '\r' then To(Noted(p), M.ExpectingNewline_2)
      else if IsControl(c) then Fail(p)
      else To(WithLast(p, Last(p).(value := Last(p).value + [c])), p.state)
    case _ => ToIf(p, c == '\n', M.HeaderLineStart)
  }

  function WithKeepAlive(r: Response): Response {
    var i := M.FirstConnection(r.headers);
    if i >= 0 then r.(keepAlive := EqualNoCase(r.headers[i].value, "Keep-Alive"))
    else if r.versionMajor > 1 || (r.versionMajor == 1 && r.versionMinor == 1) then r.(keepAlive := true)
    else r
  }

  function StepEnd(p: Parser, c: char): Stepped {
    var q := p.(resp := WithKeepAlive(p.resp));
    if q.chunked then To(q, M.ChunkSize)
    else if q.contentSize == 0 then Stepped(q, if c == '\n' then M.ParsingCompleted else M.ParsingError)
    else To(q, M.Post)
  }

  function Stored(p: Parser, c: char): Parser {
    p.(resp := p.resp.(content := p.resp.content + [c]))
  }

  function StepPost(p: Parser, c: char): Stepped {
    var q := Stored(p, c).(contentSize := Decremented(p.contentSize));
    Stepped(q, if q.contentSize == 0 then M.ParsingCompleted else M.ParsingIncompleted)
  }

  function StepSize(p: Parser, c: char): Stepped {
    match p.state
    case ChunkSize =>
      if IsAlnum(c) then To(p.(chunkSizeStr := p.chunkSizeStr + [c]), p.state)
      else if c == ';' then To(p, M.ChunkExtensionName)
      else ToIf(p, c == '\r', M.ChunkSizeNewLine)
    case ChunkExtensionName =>
      if IsAlnum(c) || c == ' ' then To(p, p.state)
      else if c == '=' then To(p, M.ChunkExtensionValue)
      else ToIf(p, c == '\r', M.ChunkSizeNewLine)
    case ChunkExtensionValue =>
      if IsAlnum(c) || c == ' ' then To(p, p.state) else ToIf(p, c == '\r', M.ChunkSizeNewLine)
    case _ =>
      if c != '\n' then Fail(p)
      else
        var n := Strtol16(p.chunkSizeStr);
        To(p.(chunkSize := n, chunkSizeStr := ""), if n == 0 then M.ChunkSizeNewLine_2 else M.ChunkData)
  }

  function StepData(p: Parser, c: char): Stepped {
    match p.state
    case ChunkData =>
      var q := Stored(p, c).(chunkSize := Decremented(p.chunkSize));
      To(q, if q.chunkSize == 0 then M.ChunkDataNewLine_1 else M.ChunkData)
    case ChunkDataNewLine_1 => ToIf(p, c == '\r', M.ChunkDataNewLine_2)
    case _ => ToIf(p, c == '\n', M.ChunkSize)
  }

  function StepTrailer(p: Parser, c: char): Stepped {
    match p.state
    case ChunkSizeNewLine_2 =>
      if c == '\r' then To(p, M.ChunkSizeNewLine_3) else ToIf(p, IsAlpha(c), M.ChunkTrailerName)
    case ChunkSizeNewLine_3 => Stepped(p, if c == '\n' then M.ParsingCompleted else M.ParsingError)
    case ChunkTrailerName =>
      if IsAlnum(c) then To(p, p.state) else ToIf(p, c == ':', M.ChunkTrailerValue)
    case _ =>
      if IsAlnum(c) || c == ' ' then To(p, p.state) else ToIf(p, c == '\r', M.ChunkSizeNewLine)
  }

  /** One step after the status line. */
  function Step(p: Parser, c: char): Stepped {
    if M.ReadsHeader(p.state) then StepHeader(p, c)
    else if p.state.ExpectingNewline_3? then StepEnd(p, c)
    else if p.state.Post? then StepPost(p, c)
    else if M.ReadsSize(p.state) then StepSize(p, c)
    else if M.ReadsData(p.state) then StepData(p, c)
    else StepTrailer(p, c)
  }

  datatype Outcome = Outcome(parser: Parser, result: M.ParseResult, used: nat)

  function Run(p: Parser, s: Bytes): Outcome
    decreases |s|
  {
    if s == "" then Outcome(p, M.ParsingIncompleted, 0)
    else
      var t := Step(p, s[0]);
      if !t.result.ParsingIncompleted? then Outcome(t.parser, t.result, 1)
      else
        var o := Run(t.parser, s[1..]);
        o.(used := o.used + 1)
  }

  // ----- lock-step -----

  function Shared(r: M.Request): Response {
    Response(r.versionMajor, r.versionMinor, r.headers, r.content, r.keepAlive)
  }

  function Shadow(p: M.Parser): Parser {
    Parser(p.state, p.contentSize, p.chunkSizeStr, p.chunkSize, p.chunked, Shared(p.req))
  }

  /** A request parser that is past the request line of a method with a body. */
  predicate Past(p: M.Parser) {
    M.HasBody(p.req.method_) && !Properties.OnRequestLine(p.state)
  }

  ghost predicate InStep(p: M.Parser, c: char) {
    && Step(Shadow(p), c) == Stepped(Shadow(M.Step(p, c).parser), M.Step(p, c).result)
    && Past(M.Step(p, c).parser)
  }

  lemma LockStepName(p: M.Parser, c: char)
    requires Past(p) && (p.state.HeaderLineStart? || p.state.HeaderName? || p.state.SpaceBeforeHeaderValue?)
    ensures InStep(p, c)
  {
    hide IsToken, IsControl, M.HasBody, M.StepEnd, M.StepPost, M.StepSize, M.StepData, M.StepTrailer, M.Noted,
      StepEnd, StepPost, StepSize, StepData, StepTrailer, Noted;
    assert M.Step(p, c) == M.StepHeader(p, c) && Step(Shadow(p), c) == StepHeader(Shadow(p), c);
    hide M.Step, Step;
  }

  lemma LockStepNoted(p: M.Parser)
    requires Past(p) && p.req.headers != []
    ensures Shadow(M.Noted(p)) == Noted(Shadow(p)) && M.Noted(p).req == p.req
  {
    hide EqualNoCase, Atoi;
  }

  lemma LockStepValue(p: M.Parser, c: char)
    requires Past(p) && p.state.HeaderValue?
    ensures InStep(p, c)
  {
    assert M.Step(p, c) == M.StepHeader(p, c) && Step(Shadow(p), c) == StepHeader(Shadow(p), c);
    if p.req.headers != [] {
      LockStepNoted(p);
    }
    hide M.Step, Step, M.Noted, Noted, IsControl, M.HasBody;
  }

  lemma LockStepBlank(p: M.Parser, c: char)
    requires Past(p) && (p.state.HeaderLws? || p.state.ExpectingNewline_2?)
    ensures InStep(p, c)
  {
    assert M.Step(p, c) == M.StepHeader(p, c) && Step(Shadow(p), c) == StepHeader(Shadow(p), c);
    hide M.Step, Step, IsControl, M.HasBody;
  }

  lemma LockStepHeader(p: M.Parser, c: char)
    requires Past(p) && M.ReadsHeader(p.state)
    ensures InStep(p, c)
  {
    hide InStep;
    if p.state.HeaderLineStart? || p.state.HeaderName? || p.state.SpaceBeforeHeaderValue? {
      LockStepName(p, c);
    } else if p.state.HeaderValue? {
      LockStepValue(p, c);
    } else {
      LockStepBlank(p, c);
    }
  }

  lemma LockStepEnd(p: M.Parser, c: char)
    requires Past(p) && (p.state.ExpectingNewline_3? || p.state.Post?)
    ensures InStep(p, c)
  {
    hide M.StepHeader, EqualNoCase, M.FirstConnection;
  }

  lemma LockStepSize(p: M.Parser, c: char)
    requires Past(p) && M.ReadsSize(p.state)
    ensures InStep(p, c)
  {
    assert M.Step(p, c) == M.StepSize(p, c) && Step(Shadow(p), c) == StepSize(Shadow(p), c);
    hide M.Step, Step, IsAlnum, Strtol16, M.HasBody;
  }

  lemma LockStepData(p: M.Parser, c: char)
    requires Past(p) && M.ReadsData(p.state)
    ensures InStep(p, c)
  {
    assert M.Step(p, c) == M.StepData(p, c) && Step(Shadow(p), c) == StepData(Shadow(p), c);
    hide M.Step, Step, M.HasBody;
  }

  lemma LockStepTrailer(p: M.Parser, c: char)
    requires Past(p) && Properties.ReadsTrailer(p.state)
    ensures InStep(p, c)
  {
    hide IsAlnum, IsAlpha, M.HasBody, M.StepMethod, M.StepVersion, M.StepHeader, M.StepEnd, M.StepPost, M.StepSize,
      M.StepData, StepHeader, StepEnd, StepPost, StepSize, StepData;
    assert M.Step(p, c) == M.StepTrailer(p, c) && Step(Shadow(p), c) == StepTrailer(Shadow(p), c);
    hide M.Step, Step;
  }

  lemma LockStep(p: M.Parser, c: char)
    requires Past(p)
    ensures InStep(p, c)
  {
    hide InStep;
    if M.ReadsHeader(p.state) {
      LockStepHeader(p, c);
    } else if p.state.ExpectingNewline_3? || p.state.Post? {
      LockStepEnd(p, c);
    } else if M.ReadsSize(p.state) {
      LockStepSize(p, c);
    } else if M.ReadsData(p.state) {
      LockStepData(p, c);
    } else {
      LockStepTrailer(p, c);
    }
  }

  /** On every input the two parsers agree on result, state, headers and content, and on the number of
      characters they read. */
  lemma {:induction false} LockStepRun(p: M.Parser, s: Bytes)
    requires Past(p)
    ensures var o := M.Run(p, s); Run(Shadow(p), s) == Outcome(Shadow(o.parser), o.result, o.used)
    decreases |s|
  {
    if s != "" {
      LockStep(p, s[0]);
      var t := M.Step(p, s[0]);
      hide Step, M.Step, Shadow;
      if t.result.ParsingIncompleted? {
        LockStepRun(t.parser, s[1..]);
      }
    }
  }

  // ----- what carries over -----

  /** The response parser at the start of the header lines. */
  function AfterStatusLine(major: nat, minor: nat): Parser {
    Parser(M.HeaderLineStart, 0, "", 0, false, Response(major, minor, [], "", false))
  }

  /** A request with the same header lines. */
  function Companion(major: nat, minor: nat, lines: seq<Text.Line>): Text.Head {
    Text.Head("POST", "/", Ascii.Text(10, major), Ascii.Text(10, minor), lines)
  }

  ghost predicate WellFormedLines(lines: seq<Text.Line>) {
    forall i :: 0 <= i < |lines| ==> Text.WellFormedLine(lines[i])
  }

  lemma PostIsName()
    ensures Text.IsName("POST") && Text.IsTarget("/")
  {
    assert IsToken('P') && IsToken('O') && IsToken('S') && IsToken('T');
  }

  lemma CompanionWellFormed(major: nat, minor: nat, lines: seq<Text.Line>)
    requires WellFormedLines(lines)
    ensures Text.WellFormed(Companion(major, minor, lines))
    ensures Number(10, Ascii.Text(10, major), 0) == major && Number(10, Ascii.Text(10, minor), 0) == minor
  {
    NumberOfText(10, major);
    NumberOfText(10, minor);
    PostIsName();
    hide Text.IsName, Text.IsTarget, Text.WellFormedLine, Number;
  }

  /** From the header lines on, the companion and the response are read alike. */
  lemma CompanionRead(major: nat, minor: nat, lines: seq<Text.Line>, rest: Bytes)
    requires WellFormedLines(lines)
    ensures var h := Companion(major, minor, lines);
            var o := M.Run(M.NEW_PARSER, Text.HeadText(h) + rest);
            var a := Run(AfterStatusLine(major, minor), Text.LinesText(lines) + rest);
            && a.parser.resp == Shared(o.parser.req) && a.result == o.result && a.used + |Text.RequestLine(h)| == o.used
  {
    var h := Companion(major, minor, lines);
    var p := Text.AtLine(M.HeaderLineStart, h.method_, h.uri, major, minor);
    var s := Text.LinesText(lines) + rest;
    CompanionWellFormed(major, minor, lines);
    assert Past(p) && Shadow(p) == AfterStatusLine(major, minor);
    HeadParts(h, rest);
    hide Text.WellFormed, M.Run, Run, Text.AtLine, Past, Text.RequestLine, Text.LinesText, Text.HeadText,
      WellFormedLines;
    Text.RequestLineRead(h);
    hide Ascii.Text, Number;
    Properties.RunConcat(M.NEW_PARSER, Text.RequestLine(h), s);
    LockStepRun(p, s);
  }

  lemma HeadParts(h: Text.Head, rest: Bytes)
    ensures Text.HeadText(h) + rest == Text.RequestLine(h) + (Text.LinesText(h.lines) + rest)
  {
    hide Text.RequestLine, Text.LinesText;
  }

  /** A chunked response is decoded as a chunked request is. */
  lemma ResponseWithChunks(major: nat, minor: nat, lines: seq<Text.Line>, c: char, b: Body.Body, rest: Bytes)
    requires WellFormedLines(lines)
    requires exists i :: 0 <= i < |lines| && Text.LineSaysChunked(lines[i])
    requires Body.WellFormedBody(b)
    ensures var tail := ("\r" + [c]) + Body.BodyText(b);
            var o := Run(AfterStatusLine(major, minor), Text.LinesText(lines) + (tail + rest));
            && o.result.ParsingCompleted? && o.used == |Text.LinesText(lines)| + |tail|
            && o.parser.resp.headers == Text.HeadersOf(lines) && o.parser.resp.content == Body.DataOf(b.chunks)
  {
    hide Run, M.Run, M.WithKeepAlive, Body.BodyText, Text.WellFormed, Body.WellFormedBody, Text.RequestLine,
      Text.LinesText, Text.HeadersOf, AfterStatusLine, WellFormedLines, Text.LineSaysChunked, Body.DataOf, Number;
    var h := Companion(major, minor, lines);
    var tail := ("\r" + [c]) + Body.BodyText(b);
    CompanionWellFormed(major, minor, lines);
    CompanionRead(major, minor, lines, tail + rest);
    CompanionSaysChunked(major, minor, lines);
    Body.RequestWithChunks(h, c, b, rest);
    Regroup(Text.HeadText(h), "\r" + [c], Body.BodyText(b), rest);
  }

  lemma CompanionSaysChunked(major: nat, minor: nat, lines: seq<Text.Line>)
    requires exists i :: 0 <= i < |lines| && Text.LineSaysChunked(lines[i])
    ensures var h := Companion(major, minor, lines);
            Text.HeadSaysChunked(h) && M.WithKeepAlive(Text.RequestOf(h)).headers == Text.HeadersOf(lines)
  {
    hide Text.LineSaysChunked, Text.HeadersOf;
    var i :| 0 <= i < |lines| && Text.LineSaysChunked(lines[i]);
    assert Text.LineSaysChunked(Companion(major, minor, lines).lines[i]);
  }

  lemma Regroup(a: Bytes, b: Bytes, c: Bytes, d: Bytes)
    ensures a + b + c + d == a + (b + c + d)
  {
  }

  lemma CompanionSilent(major: nat, minor: nat, lines: seq<Text.Line>)
    requires Properties.Announced(Text.HeadersOf(lines)) == 0
    requires forall i :: 0 <= i < |lines| ==> !Text.LineSaysChunked(lines[i])
    ensures Body.Announces(Companion(major, minor, lines), 0)
  {
    hide Properties.Announced, Text.LineSaysChunked, Text.HeaderOf;
  }

  /** A response that announces neither a length nor chunks completes with its head and has no content: the
      parser does not read on to the end of the connection. */
  lemma ResponseWithoutLength(major: nat, minor: nat, lines: seq<Text.Line>, rest: Bytes)
    requires WellFormedLines(lines)
    requires Properties.Announced(Text.HeadersOf(lines)) == 0
    requires forall i :: 0 <= i < |lines| ==> !Text.LineSaysChunked(lines[i])
    ensures var o := Run(AfterStatusLine(major, minor), Text.LinesText(lines) + (Text.CRLF + rest));
            && o.result.ParsingCompleted? && o.used == |Text.LinesText(lines)| + 2
            && o.parser.resp.headers == Text.HeadersOf(lines) && o.parser.resp.content == ""
  {
    var h := Companion(major, minor, lines);
    CompanionWellFormed(major, minor, lines);
    CompanionRead(major, minor, lines, Text.CRLF + rest);
    CompanionSilent(major, minor, lines);
    var r := M.WithKeepAlive(Text.RequestOf(h));
    assert r.headers == Text.HeadersOf(lines) && r.content == "";
    hide Run, M.Run, M.WithKeepAlive, Text.WellFormed, Text.RequestLine, Text.LinesText, Body.Announces;
    hide Properties.Announced, Text.LineSaysChunked, Text.HeaderOf, Text.HeadersOf, AfterStatusLine, WellFormedLines;
    Body.RequestWithoutBody(h, rest);
    Regroup(Text.HeadText(h), "", Text.CRLF, rest);
    assert Text.HeadText(h) + "" == Text.HeadText(h) && "" + Text.CRLF == Text.CRLF;
  }
}
