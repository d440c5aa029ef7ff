/** The request parser as a machine: the value of the parser and of the request it fills, and one step
    for each input character. */
module RequestMachine {
  import opened Wrappers
  import opened Ascii

  datatype State =
    | RequestMethodStart | RequestMethod | RequestUriStart | RequestUri
    | HttpVersion_h | HttpVersion_ht | HttpVersion_htt | HttpVersion_http | HttpVersion_slash
    | HttpVersion_majorStart | HttpVersion_major | HttpVersion_minorStart | HttpVersion_minor
    | HttpVersion_newLine
    | HeaderLineStart | HeaderLws | HeaderName | SpaceBeforeHeaderValue | HeaderValue
    | ExpectingNewline_2 | ExpectingNewline_3
    | Post
    | ChunkSize | ChunkExtensionName | ChunkExtensionValue
    | ChunkSizeNewLine | ChunkSizeNewLine_2 | ChunkSizeNewLine_3
    | ChunkTrailerName | ChunkTrailerValue
    | ChunkDataNewLine_1 | ChunkDataNewLine_2 | ChunkData

  datatype Header = Header(name: string, value: string)

  datatype Request = Request(
    method_: string,
    uri: string,
    versionMajor: nat,
    versionMinor: nat,
    headers: seq<Header>,
    content: Bytes,
    keepAlive: bool)

  datatype Parser = Parser(
    state: State,
    contentSize: nat,
    chunkSizeStr: string,
    chunkSize: nat,
    chunked: bool,
    req: Request)

  const EMPTY_REQUEST := Request("", "", 0, 0, [], "", false)
  const NEW_PARSER := Parser(RequestMethodStart, 0, "", 0, false, EMPTY_REQUEST)

  datatype ParseResult = ParsingCompleted | ParsingIncompleted | ParsingError

  /** What one character does: the parser afterwards, and whether the loop goes on. */
  datatype Stepped = Stepped(parser: Parser, result: ParseResult)

  function On(p: Parser): Stepped {
    Stepped(p, ParsingIncompleted)
  }

  function To(p: Parser, state: State): Stepped {
    On(p.(state := state))
  }

  function Fail(p: Parser): Stepped {
    Stepped(p, ParsingError)
  }

  function ToIf(p: Parser, b: bool, state: State): Stepped {
    if b then To(p, state) else Fail(p)
  }

  // ----- the request line -----

  function StepMethod(p: Parser, c: char): Stepped {
    match p.state
    case RequestMethodStart =>
      if IsToken(c) then To(p.(req := p.req.(method_ := p.req.method_ + [c])), RequestMethod) else Fail(p)
    case RequestMethod =>
      if c == ' ' then To(p, RequestUriStart)
      else if IsToken(c) then On(p.(req := p.req.(method_ := p.req.method_ + [c])))
      else Fail(p)
    case RequestUriStart =>
      if IsControl(c) then Fail(p) else To(p.(req := p.req.(uri := p.req.uri + [c])), RequestUri)
    case _ =>
      if c == ' ' then To(p, HttpVersion_h)
      else if c == '\r' then Stepped(p.(req := p.req.(versionMajor := 0, versionMinor := 9)), ParsingCompleted)
      else if IsControl(c) then Fail(p)
      else On(p.(req := p.req.(uri := p.req.uri + [c])))
  }

  function DigitOf(c: char): nat
    requires IsDigit(c)
  {
    DigitValue(c)
  }

  function StepVersion(p: Parser, c: char): Stepped {
    match p.state
    case HttpVersion_h => ToIf(p, c == 'H', HttpVersion_ht)
    case HttpVersion_ht => ToIf(p, c == 'T', HttpVersion_htt)
    case HttpVersion_htt => ToIf(p, c == 'T', HttpVersion_http)
    case HttpVersion_http => ToIf(p, c == 'P', HttpVersion_slash)
    case HttpVersion_slash =>
      if c == '/' then To(p.(req := p.req.(versionMajor := 0, versionMinor := 0)), HttpVersion_majorStart) else Fail(p)
    case HttpVersion_majorStart =>
      if IsDigit(c) then To(p.(req := p.req.(versionMajor := DigitOf(c))), HttpVersion_major) else Fail(p)
    case HttpVersion_major =>
      if c == '.' then To(p, HttpVersion_minorStart)
      else if IsDigit(c) then On(p.(req := p.req.(versionMajor := p.req.versionMajor * 10 + DigitOf(c))))
      else Fail(p)
    case HttpVersion_minorStart =>
      if IsDigit(c) then To(p.(req := p.req.(versionMinor := DigitOf(c))), HttpVersion_minor) else Fail(p)
    case HttpVersion_minor =>
      if c == '\r' then To(p, HttpVersion_newLine)
      else if IsDigit(c) then On(p.(req := p.req.(versionMinor := p.req.versionMinor * 10 + DigitOf(c))))
      else Fail(p)
    case _ => ToIf(p, c == '\n', HeaderLineStart)
  }

  // ----- the header lines: a header state without a header cannot be reached -----

  function HasBody(method_: string): bool {
    method_ == "POST" || method_ == "PUT"
  }

  function ToName(p: Parser, c: char): Parser
    requires p.req.headers != []
  {
    var n := |p.req.headers| - 1;
    var h := p.req.headers[n];
    p.(req := p.req.(headers := p.req.headers[n := h.(name := h.name + [c])]))
  }

  function ToValue(p: Parser, c: char): Parser
    requires p.req.headers != []
  {
    var n := |p.req.headers| - 1;
    var h := p.req.headers[n];
    p.(req := p.req.(headers := p.req.headers[n := h.(value := h.value + [c])]))
  }

  predicate IsLength(h: Header) {
    EqualNoCase(h.name, "Content-Length")
  }

  predicate IsEncoding(h: Header) {
    EqualNoCase(h.name, "Transfer-Encoding")
  }

  predicate IsConnection(h: Header) {
    EqualNoCase(h.name, "Connection")
  }

  /** The end of a header line: a method with a body notes how the body is framed. */
  function Noted(p: Parser): Parser
    requires p.req.headers != []
  {
    var h := p.req.headers[|p.req.headers| - 1];
    if !HasBody(p.req.method_) then p
    else if IsLength(h) then p.(contentSize := ToSize(Atoi(h.value)))
    else if IsEncoding(h) && EqualNoCase(h.value, "chunked") then p.(chunked := true)
    else p
  }

  function StepHeader(p: Parser, c: char): Stepped {
    match p.state
    case HeaderLineStart =>
      if c == '\r' then To(p, ExpectingNewline_3)
      else if p.req.headers != [] && IsBlank(c) then To(p, HeaderLws)
      else if IsToken(c) then To(p.(req := p.req.(headers := p.req.headers + [Header([c], "")])), HeaderName)
      else Fail(p)
    case HeaderLws =>
      if c == '\r' then To(p, ExpectingNewline_2)
      else if IsBlank(c) then On(p)
      else if IsControl(c) || p.req.headers == [] then Fail(p)
      else To(ToValue(p, c), HeaderValue)
    case HeaderName =>
      if c == ':' then To(p, SpaceBeforeHeaderValue)
      else if IsToken(c) && p.req.headers != [] then On(ToName(p, c))
      else Fail(p)
    case SpaceBeforeHeaderValue => ToIf(p, c == ' ', HeaderValue)
    case HeaderValue =>
      if p.req.headers == [] then Fail(p)
      else if c == '\r' then To(Noted(p), ExpectingNewline_2)
      else if IsControl(c) then Fail(p)
      else On(ToValue(p, c))
    case _ => ToIf(p, c == '\n', HeaderLineStart)
  }

  /** The first header named Connection, or -1. */
  function FirstConnection(headers: seq<Header>): (i: int)
    ensures -1 <= i < |headers|
    ensures i >= 0 ==> IsConnection(headers[i])
    ensures forall j :: 0 <= j < (if i < 0 then |headers| else i) ==> !IsConnection(headers[j])
  {
    if headers == [] then -1
    else if IsConnection(headers[0]) then 0
    else
      var i := FirstConnection(headers[1..]);
      assert forall j :: 0 < j < |headers| ==> headers[j] == headers[1..][j - 1];
      if i < 0 then -1 else i + 1
  }

  function WithKeepAlive(r: Request): Request {
    var i := FirstConnection(r.headers);
    if i >= 0 then r.(keepAlive := EqualNoCase(r.headers[i].value, "Keep-Alive"))
    else if r.versionMajor > 1 || (r.versionMajor == 1 && r.versionMinor == 1) then r.(keepAlive := true)
    else r
  }

  /** The character after the CR of the empty line. Only a request without a body looks at it. */
  function StepEnd(p: Parser, c: char): Stepped {
    var q := p.(req := WithKeepAlive(p.req));
    if q.chunked then To(q, ChunkSize)
    else if q.contentSize == 0 then Stepped(q, if c == '\n' then ParsingCompleted else ParsingError)
    else To(q, Post)
  }

  // ----- the body -----

  function Stored(p: Parser, c: char): Parser {
    p.(req := p.req.(content := p.req.content + [c]))
  }

  function StepPost(p: Parser, c: char): Stepped {
    var q := Stored(p, c).(contentSize := Decremented(p.contentSize));
    Stepped(q, if q.contentSize == 0 then ParsingCompleted else ParsingIncompleted)
  }

  function StepSize(p: Parser, c: char): Stepped {
    match p.state
    case ChunkSize =>
      if IsAlnum(c) then On(p.(chunkSizeStr := p.chunkSizeStr + [c]))
      else if c == ';' then To(p, ChunkExtensionName)
      else ToIf(p, c == '\r', ChunkSizeNewLine)
    case ChunkExtensionName =>
      if IsAlnum(c) || c == ' ' then On(p)
      else if c == '=' then To(p, ChunkExtensionValue)
      else ToIf(p, c == '\r', ChunkSizeNewLine)
    case ChunkExtensionValue =>
      if IsAlnum(c) || c == ' ' then On(p) else ToIf(p, c == '\r', ChunkSizeNewLine)
    case _ =>
      if c != '\n' then Fail(p)
      else
        var n := Strtol16(p.chunkSizeStr);
        To(p.(chunkSize := n, chunkSizeStr := ""), if n == 0 then ChunkSizeNewLine_2 else ChunkData)
  }

  function StepData(p: Parser, c: char): Stepped {
    match p.state
    case ChunkData =>
      var q := Stored(p, c).(chunkSize := Decremented(p.chunkSize));
      if q.chunkSize == 0 then To(q, ChunkDataNewLine_1) else On(q)
    case ChunkDataNewLine_1 => ToIf(p, c == '\r', ChunkDataNewLine_2)
    case _ => ToIf(p, c == '\n', ChunkSize)
  }

  function StepTrailer(p: Parser, c: char): Stepped {
    match p.state
    case ChunkSizeNewLine_2 =>
      if c == '\r' then To(p, ChunkSizeNewLine_3) else ToIf(p, IsAlpha(c), ChunkTrailerName)
    case ChunkSizeNewLine_3 => Stepped(p, if c == '\n' then ParsingCompleted else ParsingError)
    case ChunkTrailerName =>
      if IsAlnum(c) then On(p) else ToIf(p, c == ':', ChunkTrailerValue)
    case _ =>
      if IsAlnum(c) || c == ' ' then On(p) else ToIf(p, c == '\r', ChunkSizeNewLine)
  }

  predicate ReadsMethod(state: State) {
    state.RequestMethodStart? || state.RequestMethod? || state.RequestUriStart? || state.RequestUri?
  }

  predicate ReadsVersion(state: State) {
    || state.HttpVersion_h? || state.HttpVersion_ht? || state.HttpVersion_htt? || state.HttpVersion_http?
    || state.HttpVersion_slash? || state.HttpVersion_majorStart? || state.HttpVersion_major?
    || state.HttpVersion_minorStart? || state.HttpVersion_minor? || state.HttpVersion_newLine?
  }

  predicate InHeader(state: State) {
    state.HeaderLws? || state.HeaderName? || state.SpaceBeforeHeaderValue? || state.HeaderValue?
  }

  predicate ReadsHeader(state: State) {
    InHeader(state) || state.HeaderLineStart? || state.ExpectingNewline_2?
  }

  predicate ReadsSize(state: State) {
    state.ChunkSize? || state.ChunkExtensionName? || state.ChunkExtensionValue? || state.ChunkSizeNewLine?
  }

  predicate ReadsData(state: State) {
    state.ChunkData? || state.ChunkDataNewLine_1? || state.ChunkDataNewLine_2?
  }

  function Step(p: Parser, c: char): Stepped {
    if ReadsMethod(p.state) then StepMethod(p, c)
    else if ReadsVersion(p.state) then StepVersion(p, c)
    else if ReadsHeader(p.state) then StepHeader(p, c)
    else if p.state.ExpectingNewline_3? then StepEnd(p, c)
    else if p.state.Post? then StepPost(p, c)
    else if ReadsSize(p.state) then StepSize(p, c)
    else if ReadsData(p.state) then StepData(p, c)
    else StepTrailer(p, c)
  }

  // ----- the loop -----

  /** `used` counts the characters read. */
  datatype Outcome = Outcome(parser: Parser, result: ParseResult, used: nat)

  function Run(p: Parser, s: Bytes): (o: Outcome)
    ensures o.used <= |s| && (o.result.ParsingIncompleted? ==> o.used == |s|)
    decreases |s|
  {
    if s == "" then Outcome(p, ParsingIncompleted, 0)
    else
      var t := Step(p, s[0]);
      if !t.result.ParsingIncompleted? then Outcome(t.parser, t.result, 1)
      else
        var o := Run(t.parser, s[1..]);
        o.(used := o.used + 1)
  }
}
