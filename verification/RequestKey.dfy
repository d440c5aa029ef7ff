/** The normalised request and the text it is printed as, which is sent to the origin and is the key of the
    response in the cache. */
module RequestKey {
  import opened Wrappers
  import opened Ascii
  import opened RequestMachine
  import RequestProperties
  import opened RequestText
  import RequestBody
  import opened HeaderMap
  import Url = UrlMachine
  import UrlText

  /** What the printed text shows of a request. */
  datatype Shown = Shown(method_: string, path: string, versionMajor: nat, versionMinor: nat, headers: seq<Header>)

  function HeaderText(h: Header): string {
    h.name + ": " + h.value + CRLF
  }

  function HeadersText(hs: seq<Header>): string {
    if hs == [] then "" else HeaderText(hs[0]) + HeadersText(hs[1..])
  }

  function FirstLine(r: Shown): string {
    r.method_ + " " + r.path + " HTTP/" + Text(10, r.versionMajor) + "." + Text(10, r.versionMinor) + CRLF
  }

  function Printed(r: Shown): string {
    FirstLine(r) + HeadersText(r.headers) + CRLF + CRLF
  }

  predicate IsHeader(h: Header) {
    IsName(h.name) && NoControl(h.value)
  }

  predicate Printable(r: Shown) {
    IsName(r.method_) && IsTarget(r.path) && forall i :: 0 <= i < |r.headers| ==> IsHeader(r.headers[i])
  }

  // ----- the printed text is a head -----

  function LinesOf(hs: seq<Header>): (r: seq<Line>)
    ensures |r| == |hs| && forall i :: 0 <= i < |r| ==> r[i] == Line(hs[i].name, hs[i].value, [])
  {
    seq(|hs|, i requires 0 <= i < |hs| => Line(hs[i].name, hs[i].value, []))
  }

  function HeadOf(r: Shown): Head {
    Head(r.method_, r.path, Text(10, r.versionMajor), Text(10, r.versionMinor), LinesOf(r.headers))
  }

  lemma {:induction false} HeadersAsLines(hs: seq<Header>)
    ensures LinesText(LinesOf(hs)) == HeadersText(hs)
    decreases |hs|
  {
    if hs != [] {
      HeadersAsLines(hs[1..]);
      assert LinesOf(hs)[1..] == LinesOf(hs[1..]);
      assert LineText(LinesOf(hs)[0]) == HeaderText(hs[0]);
    }
  }

  lemma PrintedIsHead(r: Shown)
    ensures Printed(r) == HeadText(HeadOf(r)) + CRLF + CRLF
    ensures Printable(r) ==> WellFormed(HeadOf(r))
  {
    HeadersAsLines(r.headers);
  }

  lemma RequestOfHead(r: Shown)
    ensures RequestOf(HeadOf(r)) == Request(r.method_, r.path, r.versionMajor, r.versionMinor, r.headers, "", false)
  {
    NumberOfText(10, r.versionMajor);
    NumberOfText(10, r.versionMinor);
    var hs := HeadersOf(LinesOf(r.headers));
    forall i | 0 <= i < |hs| ensures hs[i] == r.headers[i] {
      assert r.headers[i].value + "" == r.headers[i].value;
    }
    assert hs == r.headers;
  }

  /** Printing and parsing: for a method without a body, the text is a whole request and gives back the method, the
      path as its target, the version and the headers, in order; the last CRLF is not read. */
  lemma PrintThenParse(r: Shown)
    requires Printable(r) && !HasBody(r.method_)
    ensures var o := Run(NEW_PARSER, Printed(r));
            var q := o.parser.req;
            && o.result.ParsingCompleted? && o.used + 2 == |Printed(r)|
            && Shown(q.method_, q.uri, q.versionMajor, q.versionMinor, q.headers) == r && q.content == ""
  {
    PrintedIsHead(r);
    RequestOfHead(r);
    hide Printed, HeadText, RequestOf;
    RequestBody.RequestWithoutBody(HeadOf(r), CRLF);
  }

  /** For every method, the text up to the headers gives them back. */
  lemma PrintThenParseHead(r: Shown)
    requires Printable(r)
    ensures var s := Printed(r);
            && |s| >= 4
            && var o := Run(NEW_PARSER, s[..|s| - 4]);
               var q := o.parser.req;
               && o.result.ParsingIncompleted? && o.parser.state.HeaderLineStart?
               && Shown(q.method_, q.uri, q.versionMajor, q.versionMinor, q.headers) == r
  {
    PrintedIsHead(r);
    RequestOfHead(r);
    HeadRead(HeadOf(r));
    var s := Printed(r);
    assert s[..|s| - 4] == HeadText(HeadOf(r));
  }

  /** Two printed texts are the same exactly when everything they show is. */
  lemma KeyInjective(a: Shown, b: Shown)
    requires Printable(a) && Printable(b)
    ensures Printed(a) == Printed(b) <==> a == b
  {
    hide Run, Printable, Printed;
    PrintThenParseHead(a);
    PrintThenParseHead(b);
  }

  // ----- the text of a received request -----

  /** A request that was read: its header list and URL are normalised. Rejected stands for the exception of a
      parse that does not complete, Stopped for a failed assertion or a call of abort. */
  datatype Received = Rejected | Stopped | Received(shown: Shown, url: Url.Url)

  function Receive(text: Bytes): Received {
    var o := Run(NEW_PARSER, text);
    if !o.result.ParsingCompleted? then Rejected
    else
      var r := o.parser.req;
      match Url.Parse(r.uri)
      case Stopped => Stopped
      case Parsed(valid, url) =>
        if !valid then Stopped
        else Received(Shown(r.method_, url.path, r.versionMajor, r.versionMinor, Normalized(r.headers)), url)
  }

  function Key(text: Bytes): Option<Wrappers.Key> {
    var r := Receive(text);
    if r.Received? then Some(Printed(r.shown)) else None
  }

  // ----- what the parser accepts is printable -----

  predicate HeadersLexed(hs: seq<Header>) {
    forall i :: 0 <= i < |hs| ==> IsHeader(hs[i])
  }

  predicate BeforeTarget(state: State) {
    state.RequestMethodStart? || state.RequestMethod? || state.RequestUriStart?
  }

  /** Everything stored so far is made of the characters that its place allows. */
  predicate Lexed(p: Parser) {
    && (if p.state.RequestMethodStart? then p.req.method_ == "" else IsName(p.req.method_))
    && (if BeforeTarget(p.state) then p.req.uri == "" else IsTarget(p.req.uri))
    && HeadersLexed(p.req.headers)
  }

  lemma LexedMethod(p: Parser, c: char)
    requires Lexed(p) && ReadsMethod(p.state) && !Step(p, c).result.ParsingError?
    ensures Lexed(Step(p, c).parser)
  {
    assert Step(p, c) == StepMethod(p, c);
    hide Step, HeadersLexed, IsToken, IsControl;
  }

  lemma LexedName(p: Parser, c: char)
    requires Lexed(p) && (p.state.HeaderLineStart? || p.state.HeaderName? || p.state.SpaceBeforeHeaderValue?)
    requires !Step(p, c).result.ParsingError?
    ensures Lexed(Step(p, c).parser)
  {
    assert Step(p, c) == StepHeader(p, c);
    hide Step, IsToken, IsControl, IsTarget;
  }

  lemma LexedValue(p: Parser, c: char)
    requires Lexed(p) && (p.state.HeaderLws? || p.state.HeaderValue? || p.state.ExpectingNewline_2?)
    requires !Step(p, c).result.ParsingError?
    ensures Lexed(Step(p, c).parser)
  {
    assert Step(p, c) == StepHeader(p, c);
    if p.state.HeaderValue? && c == '\r' {
      NotedRequest(p);
    }
    hide Step, IsToken, IsControl, IsTarget, IsName, Noted;
  }

  lemma LexedHeader(p: Parser, c: char)
    requires Lexed(p) && ReadsHeader(p.state) && !Step(p, c).result.ParsingError?
    ensures Lexed(Step(p, c).parser)
  {
    hide Lexed, Step;
    if p.state.HeaderLineStart? || p.state.HeaderName? || p.state.SpaceBeforeHeaderValue? {
      LexedName(p, c);
    } else {
      LexedValue(p, c);
    }
  }

  lemma NotedRequest(p: Parser)
    requires p.req.headers != []
    ensures Noted(p).req == p.req
  {
  }

  /** The other states leave what is lexed alone. */
  predicate SameLexemes(p: Parser, q: Parser) {
    && q.req.method_ == p.req.method_ && q.req.uri == p.req.uri && q.req.headers == p.req.headers
    && !ReadsMethod(q.state)
  }

  lemma LexedVersion(p: Parser, c: char)
    requires ReadsVersion(p.state)
    ensures SameLexemes(p, Step(p, c).parser)
  {
    assert Step(p, c) == StepVersion(p, c);
    hide Step, IsDigit, DigitOf;
  }

  lemma LexedBody(p: Parser, c: char)
    requires !ReadsMethod(p.state) && !ReadsHeader(p.state) && !ReadsVersion(p.state)
    ensures SameLexemes(p, Step(p, c).parser)
  {
    hide StepMethod, StepHeader, StepVersion, IsAlnum, IsAlpha, Strtol16, EqualNoCase, FirstConnection;
  }

  lemma LexedElsewhere(p: Parser, c: char)
    requires !ReadsMethod(p.state) && !ReadsHeader(p.state)
    ensures SameLexemes(p, Step(p, c).parser)
  {
    hide Step, SameLexemes;
    if ReadsVersion(p.state) {
      LexedVersion(p, c);
    } else {
      LexedBody(p, c);
    }
  }

  lemma LexedStep(p: Parser, c: char)
    requires Lexed(p) && !Step(p, c).result.ParsingError?
    ensures Lexed(Step(p, c).parser)
  {
    hide Step;
    if ReadsMethod(p.state) {
      LexedMethod(p, c);
    } else if ReadsHeader(p.state) {
      LexedHeader(p, c);
    } else {
      LexedElsewhere(p, c);
    }
  }

  lemma {:induction false} LexedRun(p: Parser, s: Bytes)
    requires Lexed(p) && !Run(p, s).result.ParsingError?
    ensures Lexed(Run(p, s).parser)
    decreases |s|
  {
    if s != "" {
      LexedStep(p, s[0]);
      hide Step, Lexed;
      if Step(p, s[0]).result.ParsingIncompleted? {
        LexedRun(Step(p, s[0]).parser, s[1..]);
      }
    }
  }

  // ----- the path of a valid URL -----

  /** The path starts with the slash; all the rest of the URL comes from the text. */
  predicate PathLexed(p: Url.Parser) {
    p.status.Going? ==>
      p.url.path != "" && p.url.path[0] == '/' && NoControl(p.url.path)
      && forall i :: 0 <= i < |p.url.path| ==> p.url.path[i] != ' '
  }

  lemma PathStep(p: Url.Parser, c: char)
    requires PathLexed(p) && p.status.Going? && !IsControl(c) && c != ' '
    ensures PathLexed(Url.Step(p, c))
  {
    hide Url.IsSchemeChar, Url.IsHostChar, Url.IsPasswordChar, IsControl, IsAlnum, IsDigit, Url.PortDone;
    if Url.ReadsPort(p.state) {
      PortKeepsPath(p);
      PortKeepsPath(p.(usernameOrHostname := p.url.hostname, url := p.url.(hostname := p.usernameOrHostname)));
    }
  }

  lemma PortKeepsPath(p: Url.Parser)
    ensures Url.PortDone(p).url.path == p.url.path && Url.PortDone(p).status == p.status
  {
  }

  lemma {:induction false} PathRun(p: Url.Parser, s: string)
    requires PathLexed(p) && NoControl(s) && forall i :: 0 <= i < |s| ==> s[i] != ' '
    ensures PathLexed(Url.Run(p, s))
    decreases |s|
  {
    if s != "" && p.status.Going? {
      PathStep(p, s[0]);
      hide Url.Step, PathLexed, IsControl;
      PathRun(Url.Step(p, s[0]), s[1..]);
    }
  }

  /** A target that is a valid URL has a path that can be printed. */
  lemma PathOfTarget(uri: string)
    requires IsTarget(uri) && Url.Parse(uri).Parsed? && Url.Parse(uri).valid
    ensures IsTarget(Url.Parse(uri).url.path)
  {
    assert PathLexed(Url.START);
    BlankTarget(uri);
    PathRun(Url.START, uri);
  }

  /** A target that starts with a space is no valid URL. */
  lemma BlankTarget(uri: string)
    requires uri != ""
    ensures uri[0] == ' ' ==> Url.Run(Url.START, uri) == Url.Bad(Url.START)
  {
    assert Url.Step(Url.START, ' ') == Url.Bad(Url.START);
    assert Url.Run(Url.Bad(Url.START), uri[1..]) == Url.Bad(Url.START);
  }

  lemma {:induction false} AddAllLexed(headers: seq<Header>)
    requires HeadersLexed(headers)
    ensures HeadersLexed(Normalized(headers))
    decreases |headers|
  {
    if headers != [] {
      var front, h := headers[..|headers| - 1], headers[|headers| - 1];
      AddAllLexed(front);
      InsertNames(Normalized(front), h.name, NormalValue(h));
      assert NoControl("close") && IsHeader(Header(h.name, NormalValue(h)));
      assert forall i :: 0 <= i < |Normalized(headers)| ==> Normalized(headers)[i] in Normalized(headers);
    }
  }

  /** Every request that is read can be printed. */
  lemma ReceivedPrintable(text: Bytes)
    requires Receive(text).Received?
    ensures Printable(Receive(text).shown)
  {
    var p := Run(NEW_PARSER, text).parser;
    LexedRun(NEW_PARSER, text);
    LastState(text);
    PathOfTarget(p.req.uri);
    AddAllLexed(p.req.headers);
  }

  /** A completed parse is past the method. */
  lemma LastState(text: Bytes)
    requires Run(NEW_PARSER, text).result.ParsingCompleted?
    ensures !BeforeTarget(Run(NEW_PARSER, text).parser.state)
  {
    RequestProperties.LastStep(NEW_PARSER, text);
    var o := Run(NEW_PARSER, text);
    RequestProperties.CompletesIn(Run(NEW_PARSER, text[..o.used - 1]).parser, text[o.used - 1]);
  }

  /** No key is the empty text, under which a client that has sent no request is looked up. */
  lemma KeyNotEmpty(text: Bytes)
    ensures Key(text) != Some("")
  {
    hide Receive, FirstLine, HeadersText;
    if Receive(text).Received? {
      assert |Printed(Receive(text).shown)| >= 4;
    }
  }

  /** Two received texts have the same key exactly when method, path and version are equal and the headers mean
      the same. Neither the host of the URL nor its query, nor the body, plays a part. */
  lemma SameKeyIff(a: Bytes, b: Bytes)
    requires Receive(a).Received? && Receive(b).Received?
    ensures var p, q := Run(NEW_PARSER, a).parser.req, Run(NEW_PARSER, b).parser.req;
            Key(a) == Key(b) <==>
              && p.method_ == q.method_ && Receive(a).url.path == Receive(b).url.path
              && p.versionMajor == q.versionMajor && p.versionMinor == q.versionMinor
              && forall name :: Meaning(p.headers, name) == Meaning(q.headers, name)
  {
    ReceivedPrintable(a);
    ReceivedPrintable(b);
    KeyInjective(Receive(a).shown, Receive(b).shown);
    NormalizedAlike(Run(NEW_PARSER, a).parser.req.headers, Run(NEW_PARSER, b).parser.req.headers);
    hide Run, Printed, Normalized, Meaning, Url.Parse;
  }

  // ----- after the request line nothing looks at the target -----

  function WithUri(p: Parser, uri: string): Parser {
    p.(req := p.req.(uri := uri))
  }

  /** The step does the same with any target, and keeps it. */
  predicate BlindStep(p: Parser, c: char, uri: string) {
    && Step(WithUri(p, uri), c) == Stepped(WithUri(Step(p, c).parser, uri), Step(p, c).result)
    && !ReadsMethod(Step(p, c).parser.state)
  }

  lemma BlindVersion(p: Parser, c: char, uri: string)
    requires ReadsVersion(p.state)
    ensures BlindStep(p, c, uri)
  {
    assert Step(p, c) == StepVersion(p, c) && Step(WithUri(p, uri), c) == StepVersion(WithUri(p, uri), c);
    hide Step, IsDigit, DigitOf;
  }

  lemma BlindHeader(p: Parser, c: char, uri: string)
    requires ReadsHeader(p.state)
    ensures BlindStep(p, c, uri)
  {
    assert Step(p, c) == StepHeader(p, c) && Step(WithUri(p, uri), c) == StepHeader(WithUri(p, uri), c);
    hide Step, IsToken, IsControl, EqualNoCase, Atoi, HasBody;
  }

  lemma BlindEnd(p: Parser, c: char, uri: string)
    requires p.state.ExpectingNewline_3? || p.state.Post?
    ensures BlindStep(p, c, uri)
  {
    hide StepMethod, StepHeader, StepVersion, StepSize, StepData, StepTrailer, EqualNoCase, FirstConnection;
  }

  lemma BlindSize(p: Parser, c: char, uri: string)
    requires ReadsSize(p.state)
    ensures BlindStep(p, c, uri)
  {
    assert Step(p, c) == StepSize(p, c) && Step(WithUri(p, uri), c) == StepSize(WithUri(p, uri), c);
    hide Step, IsAlnum, Strtol16;
  }

  lemma BlindData(p: Parser, c: char, uri: string)
    requires ReadsData(p.state)
    ensures BlindStep(p, c, uri)
  {
    assert Step(p, c) == StepData(p, c) && Step(WithUri(p, uri), c) == StepData(WithUri(p, uri), c);
    hide Step;
  }

  lemma BlindTrailer(p: Parser, c: char, uri: string)
    requires RequestProperties.ReadsTrailer(p.state)
    ensures BlindStep(p, c, uri)
  {
    assert Step(p, c) == StepTrailer(p, c) && Step(WithUri(p, uri), c) == StepTrailer(WithUri(p, uri), c);
    hide Step, IsAlnum, IsAlpha;
  }

  lemma BlindBody(p: Parser, c: char, uri: string)
    requires !ReadsMethod(p.state) && !ReadsHeader(p.state) && !ReadsVersion(p.state)
    ensures BlindStep(p, c, uri)
  {
    hide BlindStep;
    if p.state.ExpectingNewline_3? || p.state.Post? {
      BlindEnd(p, c, uri);
    } else if ReadsSize(p.state) {
      BlindSize(p, c, uri);
    } else if ReadsData(p.state) {
      BlindData(p, c, uri);
    } else {
      BlindTrailer(p, c, uri);
    }
  }

  lemma {:induction false} BlindRun(p: Parser, s: Bytes, uri: string)
    requires !ReadsMethod(p.state)
    ensures var o := Run(p, s); Run(WithUri(p, uri), s) == o.(parser := WithUri(o.parser, uri))
    decreases |s|
  {
    if s != "" {
      if ReadsVersion(p.state) {
        BlindVersion(p, s[0], uri);
      } else if ReadsHeader(p.state) {
        BlindHeader(p, s[0], uri);
      } else {
        BlindBody(p, s[0], uri);
      }
      hide Step, WithUri;
      var t := Step(p, s[0]);
      if t.result.ParsingIncompleted? {
        BlindRun(t.parser, s[1..], uri);
      }
    }
  }

  /** What follows a request line is read the same way whatever the target is, and the target is the one of the
      request line. */
  lemma LineThenRest(h: Head, rest: Bytes)
    requires WellFormed(h)
    ensures var p := AtLine(HeaderLineStart, h.method_, "", Number(10, h.major, 0), Number(10, h.minor, 0));
            var o, q := Run(NEW_PARSER, RequestLine(h) + rest), Run(p, rest);
            o.result == q.result && o.parser == WithUri(q.parser, h.uri)
  {
    var p := AtLine(HeaderLineStart, h.method_, "", Number(10, h.major, 0), Number(10, h.minor, 0));
    RequestLineRead(h);
    BlindRun(p, rest, h.uri);
    hide Run, RequestLine, WellFormed, Number;
    RequestProperties.RunConcat(NEW_PARSER, RequestLine(h), rest);
  }

  /** The key, read again by the parser, gives back what it shows, and normalising its headers changes nothing;
      this is for methods without a body. Read again as a request it is refused for every method: its target is a
      path, which is no URL. */
  lemma KeyReadAgain(text: Bytes)
    requires Receive(text).Received?
    ensures var r := Receive(text).shown;
            var o := Run(NEW_PARSER, Printed(r));
            var q := o.parser.req;
            && Key(text) == Some(Printed(r))
            && !Receive(Printed(r)).Received?
            && (!HasBody(r.method_) ==>
                  o.result.ParsingCompleted?
                  && Shown(q.method_, q.uri, q.versionMajor, q.versionMinor, Normalized(q.headers)) == r)
  {
    var r := Receive(text).shown;
    ReceivedPrintable(text);
    NormalizedTwice(Run(NEW_PARSER, text).parser.req.headers);
    PathStarts(text);
    PathIsNoUrl(r.path);
    PrintedTarget(r);
    hide Run, Printed, Normalized, Printable;
    if !HasBody(r.method_) {
      PrintThenParse(r);
    }
  }

  lemma PrintedTarget(r: Shown)
    requires Printable(r)
    ensures Run(NEW_PARSER, Printed(r)).parser.req.uri == r.path
  {
    hide Run, LinesText, LinesOf, RequestLine, Printed, Number, Printable, AtLine;
    PrintedIsHead(r);
    LineThenRest(HeadOf(r), LinesText(LinesOf(r.headers)) + CRLF + CRLF);
    Regrouped(RequestLine(HeadOf(r)), LinesText(LinesOf(r.headers)), CRLF, CRLF);
  }

  lemma Regrouped(a: Bytes, b: Bytes, c: Bytes, d: Bytes)
    ensures a + b + c + d == a + (b + c + d)
  {
  }

  lemma PathStarts(text: Bytes)
    requires Receive(text).Received?
    ensures var path := Receive(text).shown.path; path != "" && path[0] == '/'
  {
    var uri := Run(NEW_PARSER, text).parser.req.uri;
    LexedRun(NEW_PARSER, text);
    LastState(text);
    assert PathLexed(Url.START);
    BlankTarget(uri);
    PathRun(Url.START, uri);
  }

  lemma PathIsNoUrl(path: string)
    requires path != "" && path[0] == '/'
    ensures Url.Parse(path) == Url.Parsed(false, Url.NO_URL)
  {
    assert Url.Step(Url.START, '/') == Url.Bad(Url.START);
    assert Url.Run(Url.Bad(Url.START), path[1..]) == Url.Bad(Url.START);
  }

  /** Requests for URLs that differ in scheme, credentials, host, port, query or fragment, but not in the path,
      share a key, whatever their method is and whatever follows their headers; there is one whenever the request
      is complete. */
  lemma KeyIgnoresAuthorityAndQuery(h: Head, u: UrlText.Parts, v: UrlText.Parts, rest: Bytes)
    requires WellFormed(h.(uri := UrlText.UrlString(u))) && WellFormed(h.(uri := UrlText.UrlString(v)))
    requires UrlText.WellFormed(u) && UrlText.PasswordReadable(u)
    requires UrlText.WellFormed(v) && UrlText.PasswordReadable(v)
    requires u.path == v.path
    ensures var a := HeadText(h.(uri := UrlText.UrlString(u))) + rest;
            var b := HeadText(h.(uri := UrlText.UrlString(v))) + rest;
            && Key(a) == Key(b)
            && (Key(a).Some? <==> Run(NEW_PARSER, a).result.ParsingCompleted?)
  {
    KeyOfHead(h, u, rest);
    KeyOfHead(h, v, rest);
  }

  /** The key of what follows a request line with this path. */
  function KeyAfterLine(h: Head, path: string, rest: Bytes): Option<Wrappers.Key> {
    var o := Run(AtLine(HeaderLineStart, h.method_, "", Number(10, h.major, 0), Number(10, h.minor, 0)), rest);
    var r := o.parser.req;
    if !o.result.ParsingCompleted? then None
    else Some(Printed(Shown(r.method_, path, r.versionMajor, r.versionMinor, Normalized(r.headers))))
  }

  lemma KeyOfHead(h: Head, u: UrlText.Parts, rest: Bytes)
    requires WellFormed(h.(uri := UrlText.UrlString(u)))
    requires UrlText.WellFormed(u) && UrlText.PasswordReadable(u)
    ensures var a := HeadText(h.(uri := UrlText.UrlString(u))) + rest;
            && Key(a) == KeyAfterLine(h, "/" + u.path, LinesText(h.lines) + rest)
            && (Key(a).Some? <==> Run(NEW_PARSER, a).result.ParsingCompleted?)
  {
    hide Run, Normalized, Url.Parse, UrlText.UrlString, Printed, RequestLine, LinesText, WellFormed, UrlText.UrlOf,
      UrlText.WellFormed, UrlText.PasswordReadable, AtLine, Number;
    var head, lines := h.(uri := UrlText.UrlString(u)), LinesText(h.lines);
    LineThenRest(head, lines + rest);
    UrlText.UrlRoundTrip(u);
    UrlPath(u);
    assert HeadText(head) + rest == RequestLine(head) + (lines + rest);
  }

  lemma UrlPath(u: UrlText.Parts)
    ensures UrlText.UrlOf(u).path == "/" + u.path
  {
  }
}
