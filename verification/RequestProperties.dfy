/** What holds of every run of the request parser. */
module RequestProperties {
  import opened Wrappers
  import opened Ascii
  import opened RequestMachine

  // ----- where the input is cut does not matter -----

  lemma {:induction false} RunConcat(p: Parser, a: Bytes, b: Bytes)
    ensures var first := Run(p, a);
            Run(p, a + b) == if first.result.ParsingIncompleted?
                             then var o := Run(first.parser, b); o.(used := |a| + o.used)
                             else first
    decreases |a|
  {
    if a == "" {
      assert a + b == b;
    } else {
      assert (a + b)[0] == a[0] && (a + b)[1..] == a[1..] + b;
      RunConcat(Step(p, a[0]).parser, a[1..], b);
    }
  }

  function Flatten(pieces: seq<Bytes>): Bytes {
    if pieces == [] then "" else pieces[0] + Flatten(pieces[1..])
  }

  /** Feeds the pieces in order, until one does not leave the parser waiting for more. */
  function Feed(p: Parser, pieces: seq<Bytes>): Outcome
    decreases |pieces|
  {
    if pieces == [] then Outcome(p, ParsingIncompleted, 0)
    else
      var first := Run(p, pieces[0]);
      if !first.result.ParsingIncompleted? then first
      else
        var o := Feed(first.parser, pieces[1..]);
        o.(used := |pieces[0]| + o.used)
  }

  /** Any partition of the input gives the result, the request, the parser and the number of characters read
      that the whole input gives. */
  lemma {:induction false} SplitInvariance(p: Parser, pieces: seq<Bytes>)
    ensures Feed(p, pieces) == Run(p, Flatten(pieces))
    decreases |pieces|
  {
    if pieces != [] {
      RunConcat(p, pieces[0], Flatten(pieces[1..]));
      SplitInvariance(Run(p, pieces[0]).parser, pieces[1..]);
    }
  }

  // ----- body framing -----

  predicate ReadsTrailer(state: State) {
    || state.ChunkSizeNewLine_2? || state.ChunkSizeNewLine_3?
    || state.ChunkTrailerName? || state.ChunkTrailerValue?
  }

  predicate InBody(state: State) {
    state.Post? || ReadsSize(state) || ReadsData(state) || ReadsTrailer(state)
  }

  /** The length that the last Content-Length header announces. */
  function Announced(headers: seq<Header>): nat {
    if headers == [] then 0
    else
      var h := headers[|headers| - 1];
      if IsLength(h) then ToSize(Atoi(h.value)) else Announced(headers[..|headers| - 1])
  }

  predicate SaysChunked(h: Header) {
    IsEncoding(h) && EqualNoCase(h.value, "chunked")
  }

  /** The headers whose lines have ended. */
  function Ended(p: Parser): seq<Header> {
    var n := |p.req.headers|;
    if n > 0 && (p.state.HeaderName? || p.state.SpaceBeforeHeaderValue? || p.state.HeaderValue?)
    then p.req.headers[..n - 1] else p.req.headers
  }

  predicate OnRequestLine(state: State) {
    ReadsMethod(state) || ReadsVersion(state)
  }

  function Last(p: Parser): Header
    requires p.req.headers != []
  {
    p.req.headers[|p.req.headers| - 1]
  }

  ghost predicate HeaderStarted(p: Parser) {
    && (InHeader(p.state) ==> p.req.headers != [])
    && (p.state.HeaderName? || p.state.SpaceBeforeHeaderValue? ==> Last(p).value == "")
  }

  /** Only a method with a body reaches a body state, and nothing is stored before. */
  ghost predicate Placed(p: Parser) {
    && HeaderStarted(p)
    && (OnRequestLine(p.state) ==> p.req.headers == [] && p.contentSize == 0 && !p.chunked)
    && (!HasBody(p.req.method_) ==> p.contentSize == 0 && !p.chunked && !InBody(p.state))
    && (!InBody(p.state) ==> p.req.content == "" && p.chunkSizeStr == "")
    && (p.state.Post? ==> p.contentSize > 0 && !p.chunked)
    && (InBody(p.state) && !p.state.Post? ==> p.chunked)
    && (p.state.ChunkData? <==> p.chunkSize > 0)
    && (p.chunkSizeStr != "" ==> ReadsSize(p.state))
  }

  /** Nothing of the body is lost: what is still expected and what is stored make up what was announced. */
  ghost predicate LengthNoted(p: Parser) {
    || (p.state.HeaderValue? && p.req.headers != [] && IsLength(Last(p)))
    || p.contentSize + (if p.state.Post? then |p.req.content| else 0) == Announced(Ended(p))
  }

  ghost predicate Framed(p: Parser) {
    Placed(p) && (HasBody(p.req.method_) ==> LengthNoted(p))
  }

  /** On the request line nothing but the request line itself changes. */
  ghost predicate Plain(p: Parser) {
    && p.contentSize == 0 && !p.chunked && p.chunkSize == 0 && p.chunkSizeStr == ""
    && p.req.headers == [] && p.req.content == "" && (OnRequestLine(p.state) || p.state.HeaderLineStart?)
  }

  lemma PlainMethod(p: Parser, c: char)
    requires Plain(p) && ReadsMethod(p.state) && Step(p, c).result.ParsingIncompleted?
    ensures Plain(Step(p, c).parser)
  {
    hide StepVersion, StepHeader, StepEnd, StepPost, StepSize, StepData, StepTrailer, IsToken, IsControl;
  }

  lemma PlainVersion(p: Parser, c: char)
    requires Plain(p) && ReadsVersion(p.state) && Step(p, c).result.ParsingIncompleted?
    ensures Plain(Step(p, c).parser)
  {
    hide StepMethod, StepHeader, StepEnd, StepPost, StepSize, StepData, StepTrailer, IsDigit, DigitOf;
  }

  lemma FramedLine(p: Parser, c: char)
    requires Framed(p) && OnRequestLine(p.state) && Step(p, c).result.ParsingIncompleted?
    ensures Framed(Step(p, c).parser)
  {
    assert Plain(p);
    if ReadsMethod(p.state) {
      PlainMethod(p, c);
    } else {
      PlainVersion(p, c);
    }
    hide Step;
  }

  lemma FramedEnd(p: Parser, c: char)
    requires Framed(p) && p.state.ExpectingNewline_3? && Step(p, c).result.ParsingIncompleted?
    ensures Framed(Step(p, c).parser)
  {
    hide StepMethod, StepVersion, StepHeader, StepPost, StepSize, StepData, StepTrailer, FirstConnection, EqualNoCase;
    hide Announced;
  }

  lemma FramedBody(p: Parser, c: char)
    requires Framed(p) && InBody(p.state) && Step(p, c).result.ParsingIncompleted?
    ensures Framed(Step(p, c).parser)
  {
    if p.state.Post? {
      FramedPost(p, c);
    } else {
      FramedChunk(p, c);
    }
  }

  lemma FramedPost(p: Parser, c: char)
    requires Framed(p) && p.state.Post? && Step(p, c).result.ParsingIncompleted?
    ensures Framed(Step(p, c).parser)
  {
    hide Announced;
  }

  ghost predicate SameHead(p: Parser, q: Parser) {
    && q.req.headers == p.req.headers && q.req.method_ == p.req.method_
    && q.contentSize == p.contentSize && q.chunked == p.chunked
  }

  ghost predicate ChunkKept(p: Parser, q: Parser) {
    Placed(q) && SameHead(p, q) && InBody(q.state) && !q.state.Post?
  }

  lemma PlacedSize(p: Parser, c: char)
    requires Placed(p) && Step(p, c).result.ParsingIncompleted?
    requires ReadsSize(p.state)
    ensures ChunkKept(p, Step(p, c).parser)
  {
    assert Step(p, c) == StepSize(p, c);
    hide Step, IsAlnum, Strtol16, HasBody;
  }

  lemma PlacedData(p: Parser, c: char)
    requires Placed(p) && Step(p, c).result.ParsingIncompleted?
    requires ReadsData(p.state)
    ensures ChunkKept(p, Step(p, c).parser)
  {
    assert Step(p, c) == StepData(p, c);
    var q := StepData(p, c).parser;
    assert q == p.(state := q.state, chunkSize := q.chunkSize, req := p.req.(content := q.req.content));
    assert ReadsData(q.state) || q.state.ChunkSize?;
    assert q.state.ChunkData? <==> q.chunkSize > 0;
    hide Step, StepData, HasBody;
  }

  lemma PlacedTrailer(p: Parser, c: char)
    requires Placed(p) && Step(p, c).result.ParsingIncompleted?
    requires ReadsTrailer(p.state)
    ensures ChunkKept(p, Step(p, c).parser)
  {
    assert Step(p, c) == StepTrailer(p, c);
    var q := StepTrailer(p, c).parser;
    assert q == p.(state := q.state) && (ReadsTrailer(q.state) || q.state.ChunkSizeNewLine?);
    hide Step, StepTrailer, HasBody;
  }

  lemma PlacedChunk(p: Parser, c: char)
    requires Placed(p) && InBody(p.state) && !p.state.Post? && Step(p, c).result.ParsingIncompleted?
    ensures ChunkKept(p, Step(p, c).parser)
  {
    hide Placed, Step, ChunkKept;
    if ReadsSize(p.state) {
      PlacedSize(p, c);
    } else if ReadsData(p.state) {
      PlacedData(p, c);
    } else {
      PlacedTrailer(p, c);
    }
  }

  lemma FramedChunk(p: Parser, c: char)
    requires Framed(p) && InBody(p.state) && !p.state.Post? && Step(p, c).result.ParsingIncompleted?
    ensures Framed(Step(p, c).parser)
  {
    PlacedChunk(p, c);
    hide Step, Placed, Announced;
  }

  /** What the character `c` of the header lines changes. */
  ghost predicate HeaderMove(p: Parser, c: char, q: Parser) {
    match q.state
    case HeaderLws =>
      q == p.(state := HeaderLws) && p.req.headers != [] && (p.state.HeaderLineStart? || p.state.HeaderLws?)
    case HeaderName =>
      || (p.state.HeaderLineStart? && q == p.(state := HeaderName, req := q.req)
          && q.req == p.req.(headers := p.req.headers + [Header([c], "")]))
      || (p.state.HeaderName? && p.req.headers != [] && q == ToName(p, c))
    case SpaceBeforeHeaderValue => p.state.HeaderName? && q == p.(state := SpaceBeforeHeaderValue)
    case HeaderValue =>
      || (p.state.SpaceBeforeHeaderValue? && q == p.(state := HeaderValue))
      || ((p.state.HeaderValue? || p.state.HeaderLws?) && p.req.headers != []
          && q == ToValue(p, c).(state := HeaderValue))
    case ExpectingNewline_2 =>
      || (p.state.HeaderLws? && q == p.(state := ExpectingNewline_2))
      || (p.state.HeaderValue? && p.req.headers != [] && q == Noted(p).(state := ExpectingNewline_2))
    case HeaderLineStart => p.state.ExpectingNewline_2? && q == p.(state := HeaderLineStart)
    case ExpectingNewline_3 => p.state.HeaderLineStart? && q == p.(state := ExpectingNewline_3)
    case _ => false
  }

  lemma HeaderMoves(p: Parser, c: char)
    requires Placed(p) && Step(p, c).result.ParsingIncompleted?
    requires ReadsHeader(p.state)
    ensures HeaderMove(p, c, Step(p, c).parser)
  {
    assert Step(p, c) == StepHeader(p, c);
    hide Step, Noted, ToName, ToValue, IsToken, IsControl;
  }

  lemma StartedHeader(p: Parser, c: char, q: Parser)
    requires HeaderStarted(p) && HeaderMove(p, c, q)
    ensures HeaderStarted(q)
  {
    hide EqualNoCase, Atoi;
  }

  /** A header line leaves the body alone and, if the method has none, its framing. */
  ghost predicate SameBody(p: Parser, q: Parser) {
    && q.req.content == p.req.content && q.chunkSizeStr == p.chunkSizeStr && q.chunkSize == p.chunkSize
    && q.req.method_ == p.req.method_
    && (HasBody(p.req.method_) || (q.contentSize == p.contentSize && q.chunked == p.chunked))
    && !OnRequestLine(q.state) && !InBody(q.state)
  }

  lemma NotedKeeps(p: Parser)
    requires p.req.headers != []
    ensures var q := Noted(p);
            && q == p.(contentSize := q.contentSize, chunked := q.chunked)
            && (!HasBody(p.req.method_) ==> q == p)
  {
    hide EqualNoCase, Atoi, HasBody;
  }

  /** A header line changes the headers, and at its end what it notes. */
  lemma HeaderShape(p: Parser, c: char, q: Parser)
    requires HeaderStarted(p) && HeaderMove(p, c, q)
    ensures q.req == p.req.(headers := q.req.headers)
    ensures q.chunkSizeStr == p.chunkSizeStr && q.chunkSize == p.chunkSize
    ensures HasBody(p.req.method_) || (q.contentSize == p.contentSize && q.chunked == p.chunked)
  {
    if p.req.headers != [] {
      NotedKeeps(p);
    }
    hide Noted, HasBody;
  }

  lemma HeaderStates(p: Parser, c: char, q: Parser)
    requires HeaderMove(p, c, q)
    ensures ReadsHeader(p.state) && (ReadsHeader(q.state) || q.state.ExpectingNewline_3?)
  {
    hide Noted, HasBody, ToName, ToValue;
  }

  lemma HeaderKeeps(p: Parser, c: char, q: Parser)
    requires HeaderStarted(p) && HeaderMove(p, c, q)
    ensures SameBody(p, q) && !OnRequestLine(p.state) && !InBody(p.state)
  {
    HeaderShape(p, c, q);
    HeaderStates(p, c, q);
    hide HeaderMove, HeaderStarted, HasBody;
  }

  lemma PlacedHeader(p: Parser, c: char, q: Parser)
    requires Placed(p) && HeaderMove(p, c, q)
    ensures Placed(q)
  {
    HeaderKeeps(p, c, q);
    StartedHeader(p, c, q);
    hide HeaderMove, HeaderStarted;
  }

  /** The last header is the only one that a step changes. */
  lemma AnnouncedLast(headers: seq<Header>)
    requires headers != []
    ensures var h := headers[|headers| - 1];
            Announced(headers) == if IsLength(h) then ToSize(Atoi(h.value)) else Announced(headers[..|headers| - 1])
  {
  }

  /** The last header changes, the others stay. */
  lemma LengthLast(p: Parser, c: char, q: Parser)
    requires p.req.headers != [] && LengthNoted(p) && HasBody(p.req.method_)
    requires (q == ToName(p, c) && p.state.HeaderName?)
             || (q == ToValue(p, c).(state := HeaderValue) && (p.state.HeaderValue? || p.state.HeaderLws?))
    ensures LengthNoted(q)
  {
    AnnouncedLast(p.req.headers);
    var n := |p.req.headers|;
    assert q.req.headers[..n - 1] == p.req.headers[..n - 1];
    hide EqualNoCase, Atoi, Announced, HasBody;
  }

  lemma LengthEnded(p: Parser)
    requires p.req.headers != [] && p.state.HeaderValue? && LengthNoted(p) && HasBody(p.req.method_)
    ensures LengthNoted(Noted(p).(state := ExpectingNewline_2))
  {
    AnnouncedLast(p.req.headers);
    hide EqualNoCase, Atoi, Announced, HasBody;
  }

  lemma LengthHeader(p: Parser, c: char, q: Parser)
    requires HeaderStarted(p) && HasBody(p.req.method_) && LengthNoted(p) && HeaderMove(p, c, q)
    ensures LengthNoted(q)
  {
    if p.state.HeaderValue? && q.state.ExpectingNewline_2? {
      LengthEnded(p);
    } else if (q.state.HeaderName? && p.state.HeaderName?) ||
              (q.state.HeaderValue? && !p.state.SpaceBeforeHeaderValue?) {
      LengthLast(p, c, q);
    } else {
      assert q.state.HeaderName? ==> Ended(q) == p.req.headers;
      hide Announced, HasBody, EqualNoCase, ToName, ToValue, Noted;
    }
  }

  lemma FramedStep(p: Parser, c: char)
    requires Framed(p) && Step(p, c).result.ParsingIncompleted?
    ensures Framed(Step(p, c).parser)
  {
    if OnRequestLine(p.state) {
      FramedLine(p, c);
    } else if p.state.ExpectingNewline_3? {
      FramedEnd(p, c);
    } else if InBody(p.state) {
      FramedBody(p, c);
    } else {
      HeaderMoves(p, c);
      hide Step;
      var q := Step(p, c).parser;
      PlacedHeader(p, c, q);
      assert q.req.method_ == p.req.method_;
      if HasBody(p.req.method_) {
        LengthHeader(p, c, q);
      }
    }
  }

  lemma {:induction false} FramedRun(p: Parser, s: Bytes)
    requires Framed(p) && Run(p, s).result.ParsingIncompleted?
    ensures Framed(Run(p, s).parser)
    decreases |s|
  {
    if s != "" {
      FramedStep(p, s[0]);
      FramedRun(Step(p, s[0]).parser, s[1..]);
    }
  }

  lemma CompletesIn(p: Parser, c: char)
    requires Step(p, c).result.ParsingCompleted?
    ensures p.state.RequestUri? || p.state.ExpectingNewline_3? || p.state.Post? || p.state.ChunkSizeNewLine_3?
    ensures Step(p, c).parser.state == p.state
  {
    hide IsToken, IsControl, IsDigit, IsAlnum, IsAlpha, WithKeepAlive, Noted, ToName, ToValue;
  }

  /** The request that a completion leaves. */
  ghost predicate WholeBody(p: Parser) {
    && (!InBody(p.state) ==> p.req.content == "")
    && (p.state.ExpectingNewline_3? && HasBody(p.req.method_) ==> Announced(p.req.headers) == 0)
    && (p.state.Post? ==> |p.req.content| == Announced(p.req.headers))
    && p.chunkSize == 0 && (InBody(p.state) ==> HasBody(p.req.method_))
  }

  lemma FramedEndOfBody(p: Parser, c: char)
    requires Framed(p) && Step(p, c).result.ParsingCompleted?
    ensures WholeBody(Step(p, c).parser)
  {
    CompletesIn(p, c);
    assert p.state.RequestUri? ==> Step(p, c) == StepMethod(p, c);
    assert p.state.ExpectingNewline_3? ==> Step(p, c) == StepEnd(p, c);
    hide Step, StepHeader, StepVersion, StepSize, StepData, IsControl, IsToken, FirstConnection, EqualNoCase;
    hide Announced;
  }

  /** The character ends a header line that makes the body chunked. */
  predicate SaysChunkedNow(p: Parser, c: char) {
    && p.state.HeaderValue? && c == '\r' && HasBody(p.req.method_)
    && p.req.headers != [] && SaysChunked(Last(p))
  }

  /** At the end of some header line of the input, the header was a Transfer-Encoding with the value chunked. */
  predicate SaidChunked(p: Parser, s: Bytes)
    decreases |s|
  {
    if s == "" then false
    else
      var t := Step(p, s[0]);
      SaysChunkedNow(p, s[0]) || (t.result.ParsingIncompleted? && SaidChunked(t.parser, s[1..]))
  }

  lemma ChunkedStep(p: Parser, c: char)
    ensures Step(p, c).parser.chunked <==> p.chunked || SaysChunkedNow(p, c)
  {
    if ReadsHeader(p.state) {
      ChunkedHeader(p, c);
    } else {
      ChunkedKept(p, c);
    }
  }

  lemma ChunkedHeader(p: Parser, c: char)
    requires ReadsHeader(p.state)
    ensures Step(p, c).parser.chunked <==> p.chunked || SaysChunkedNow(p, c)
  {
    assert Step(p, c) == StepHeader(p, c);
    hide Step, IsToken, IsControl, Atoi;
  }

  lemma ChunkedKept(p: Parser, c: char)
    requires !ReadsHeader(p.state)
    ensures Step(p, c).parser.chunked == p.chunked
  {
    hide StepHeader, IsToken, IsControl, IsDigit, DigitOf, IsAlnum, IsAlpha, Strtol16, WithKeepAlive;
  }

  lemma {:induction false} ChunkedRun(p: Parser, s: Bytes)
    ensures Run(p, s).parser.chunked <==> p.chunked || SaidChunked(p, s)
    decreases |s|
  {
    if s != "" {
      ChunkedStep(p, s[0]);
      hide Step, SaysChunkedNow;
      var t := Step(p, s[0]);
      if t.result.ParsingIncompleted? {
        ChunkedRun(t.parser, s[1..]);
      }
    }
  }

  /** Body framing, for every input. While the body of a given length is read, what is missing and what is
      stored make up the announced length; on completion nothing is missing. Without POST or PUT no body state is
      reached and nothing is stored. A body is read in chunks if and only if some header line, when it ended, was a
      Transfer-Encoding with the value chunked; what a folded line adds later does not matter. */
  lemma BodyFraming(s: Bytes)
    ensures var o := Run(NEW_PARSER, s);
            var p := o.parser;
            && (o.result.ParsingIncompleted? && !HasBody(p.req.method_) ==> !InBody(p.state) && p.req.content == "")
            && (o.result.ParsingIncompleted? && p.state.Post? ==>
                  p.contentSize > 0 && p.contentSize + |p.req.content| == Announced(p.req.headers))
            && (!o.result.ParsingError? && InBody(p.state) ==> (p.state.Post? <==> !SaidChunked(NEW_PARSER, s)))
            && (o.result.ParsingCompleted? ==> WholeBody(p))
  {
    hide Run, SaidChunked, Announced;
    ChunkedRun(NEW_PARSER, s);
    if Run(NEW_PARSER, s).result.ParsingIncompleted? {
      IncompleteFraming(s);
    } else if Run(NEW_PARSER, s).result.ParsingCompleted? {
      hide WholeBody;
      CompletedFraming(s);
    }
  }

  lemma IncompleteFraming(s: Bytes)
    requires Run(NEW_PARSER, s).result.ParsingIncompleted?
    ensures var p := Run(NEW_PARSER, s).parser;
            && (!HasBody(p.req.method_) ==> !InBody(p.state) && p.req.content == "")
            && (p.state.Post? ==> p.contentSize > 0 && p.contentSize + |p.req.content| == Announced(p.req.headers))
            && (InBody(p.state) ==> (p.state.Post? <==> !p.chunked))
  {
    assert Framed(NEW_PARSER);
    hide Run, Announced;
    FramedRun(NEW_PARSER, s);
  }

  lemma CompletedFraming(s: Bytes)
    requires Run(NEW_PARSER, s).result.ParsingCompleted?
    ensures var p := Run(NEW_PARSER, s).parser;
            WholeBody(p) && (InBody(p.state) ==> (p.state.Post? <==> !p.chunked))
  {
    assert Framed(NEW_PARSER);
    hide Run, Step, WholeBody;
    LastStep(NEW_PARSER, s);
    var n := Run(NEW_PARSER, s).used - 1;
    var before := Run(NEW_PARSER, s[..n]).parser;
    FramedRun(NEW_PARSER, s[..n]);
    FramedEndOfBody(before, s[n]);
    CompletedKind(before, s[n]);
  }

  lemma CompletedKind(p: Parser, c: char)
    requires Placed(p) && Step(p, c).result.ParsingCompleted?
    ensures var q := Step(p, c).parser; InBody(q.state) ==> (q.state.Post? <==> !q.chunked)
  {
    CompletesIn(p, c);
    if InBody(p.state) {
      ChunkedKept(p, c);
    }
    hide Step;
  }

  /** A run that stops was incomplete one character earlier, and that character stopped it. */
  lemma {:induction false} LastStep(p: Parser, s: Bytes)
    requires !Run(p, s).result.ParsingIncompleted?
    ensures var o := Run(p, s);
            && o.used > 0 && Run(p, s[..o.used - 1]).result.ParsingIncompleted?
            && Step(Run(p, s[..o.used - 1]).parser, s[o.used - 1]) == Stepped(o.parser, o.result)
    decreases |s|
  {
    var t := Step(p, s[0]);
    var o := Run(p, s);
    if t.result.ParsingIncompleted? {
      LastStep(t.parser, s[1..]);
      assert s[..o.used - 1][1..] == s[1..][..o.used - 2];
    }
  }

  // ----- chunks -----

  /** The sum of the chunk sizes that the run reads. */
  function SizesRead(p: Parser, s: Bytes): nat
    decreases |s|
  {
    if s == "" then 0
    else
      var t := Step(p, s[0]);
      var size := if p.state.ChunkSizeNewLine? && s[0] == '\n' then Strtol16(p.chunkSizeStr) else 0;
      if t.result.ParsingIncompleted? then size + SizesRead(t.parser, s[1..]) else size
  }

  /** What is stored of a chunked body and what is missing of its current chunk. */
  function Owed(p: Parser): nat {
    |p.req.content| + p.chunkSize
  }

  lemma ChunkStepElsewhere(p: Parser, c: char)
    requires Placed(p) && !InBody(p.state) && !Step(p, c).parser.state.Post?
    ensures Owed(Step(p, c).parser) == Owed(p)
  {
    hide IsToken, IsControl, IsDigit, FirstConnection, EqualNoCase, Atoi, StepSize, StepData, StepTrailer;
  }

  lemma ChunkStep(p: Parser, c: char)
    requires Placed(p) && !p.state.Post? && !Step(p, c).parser.state.Post?
    ensures Owed(Step(p, c).parser)
            == Owed(p) + (if p.state.ChunkSizeNewLine? && c == '\n' then Strtol16(p.chunkSizeStr) else 0)
  {
    if InBody(p.state) {
      hide StepMethod, StepVersion, StepHeader, StepEnd, IsAlnum, IsAlpha, Strtol16;
    } else {
      ChunkStepElsewhere(p, c);
    }
  }

  lemma {:induction false} PostStays(p: Parser, s: Bytes)
    requires p.state.Post?
    ensures Run(p, s).parser.state.Post?
    decreases |s|
  {
    if s != "" {
      PostStays(Step(p, s[0]).parser, s[1..]);
    }
  }

  lemma {:induction false} ChunkConservationFrom(p: Parser, s: Bytes)
    requires Framed(p) && !p.state.Post? && !Run(p, s).parser.state.Post?
    ensures var q := Run(p, s).parser;
            |q.req.content| + q.chunkSize == |p.req.content| + p.chunkSize + SizesRead(p, s)
    decreases |s|
  {
    if s != "" {
      var t := Step(p, s[0]);
      if t.parser.state.Post? {
        PostStays(t.parser, s[1..]);
      } else {
        ChunkStep(p, s[0]);
        if t.result.ParsingIncompleted? {
          FramedStep(p, s[0]);
          ChunkConservationFrom(t.parser, s[1..]);
        }
      }
    }
  }

  /** On every input, the content stored and what is missing of the current chunk make up the chunk sizes read so
      far; on completion nothing is missing. */
  lemma ChunkConservation(s: Bytes)
    ensures var o := Run(NEW_PARSER, s);
            var p := o.parser;
            && (!p.state.Post? ==> |p.req.content| + p.chunkSize == SizesRead(NEW_PARSER, s))
            && (!p.state.Post? && o.result.ParsingCompleted? ==> |p.req.content| == SizesRead(NEW_PARSER, s))
  {
    assert Framed(NEW_PARSER);
    hide Framed, InBody, Announced, SizesRead;
    var o := Run(NEW_PARSER, s);
    hide Run;
    if !o.parser.state.Post? {
      ChunkConservationFrom(NEW_PARSER, s);
      if o.result.ParsingCompleted? {
        BodyFraming(s);
      }
    }
  }
}
