/** The text of a request head (section 3 and section 5 of RFC 9112) and what the parser makes of it. */
module RequestText {
  import opened Wrappers
  import opened Ascii
  import opened RequestMachine
  import opened RequestProperties

  const CRLF := "\r\n"

  // ----- the grammar -----

  /** A continuation of a header line: it starts with blanks (obs-fold, section 5.2 of RFC 9112). */
  datatype Fold = Fold(blanks: string, text: string)

  datatype Line = Line(name: string, value: string, folds: seq<Fold>)

  /** The version is written in decimal digits. */
  datatype Head = Head(method_: string, uri: string, major: string, minor: string, lines: seq<Line>)

  predicate IsName(s: string) {
    s != "" && forall i :: 0 <= i < |s| ==> IsToken(s[i])
  }

  predicate NoControl(s: string) {
    forall i :: 0 <= i < |s| ==> !IsControl(s[i])
  }

  predicate WellFormedFold(f: Fold) {
    && f.blanks != "" && (forall i :: 0 <= i < |f.blanks| ==> IsBlank(f.blanks[i]))
    && NoControl(f.text) && (f.text != "" ==> !IsBlank(f.text[0]))
  }

  predicate WellFormedLine(l: Line) {
    IsName(l.name) && NoControl(l.value) && forall i :: 0 <= i < |l.folds| ==> WellFormedFold(l.folds[i])
  }

  /** The parser takes any character but a control character for the first one of the target. */
  predicate IsTarget(s: string) {
    s != "" && NoControl(s) && forall i :: 0 < i < |s| ==> s[i] != ' '
  }

  predicate IsNumeral(s: string) {
    s != "" && AllDigits(10, s)
  }

  predicate WellFormed(h: Head) {
    && IsName(h.method_) && IsTarget(h.uri) && IsNumeral(h.major) && IsNumeral(h.minor)
    && forall i :: 0 <= i < |h.lines| ==> WellFormedLine(h.lines[i])
  }

  function FoldText(f: Fold): string {
    f.blanks + f.text + CRLF
  }

  function FoldsText(folds: seq<Fold>): string {
    if folds == [] then "" else FoldText(folds[0]) + FoldsText(folds[1..])
  }

  function LineText(l: Line): string {
    l.name + ": " + l.value + CRLF + FoldsText(l.folds)
  }

  function LinesText(lines: seq<Line>): string {
    if lines == [] then "" else LineText(lines[0]) + LinesText(lines[1..])
  }

  function RequestLine(h: Head): string {
    h.method_ + " " + h.uri + " HTTP/" + h.major + "." + h.minor + CRLF
  }

  /** The head up to the empty line that ends it. */
  function HeadText(h: Head): string {
    RequestLine(h) + LinesText(h.lines)
  }

  // ----- the request it stands for -----

  function FoldedText(folds: seq<Fold>): string {
    if folds == [] then "" else folds[0].text + FoldedText(folds[1..])
  }

  /** The pieces of a folded value follow each other directly: the blanks between them are dropped. */
  function HeaderOf(l: Line): Header {
    Header(l.name, l.value + FoldedText(l.folds))
  }

  function HeadersOf(lines: seq<Line>): (r: seq<Header>)
    ensures |r| == |lines| && forall i :: 0 <= i < |r| ==> r[i] == HeaderOf(lines[i])
  {
    seq(|lines|, i requires 0 <= i < |lines| => HeaderOf(lines[i]))
  }

  function RequestOf(h: Head): Request {
    Request(h.method_, h.uri, Number(10, h.major, 0), Number(10, h.minor, 0), HeadersOf(h.lines), "", false)
  }

  // ----- runs one after the other -----

  ghost predicate Reaches(p: Parser, s: Bytes, q: Parser) {
    Run(p, s) == Outcome(q, ParsingIncompleted, |s|)
  }

  lemma Reach(p: Parser, c: char)
    requires Step(p, c).result.ParsingIncompleted?
    ensures Reaches(p, [c], Step(p, c).parser)
  {
    hide Step;
    var q := Step(p, c).parser;
    assert [c][1..] == "" && Run(q, "") == Outcome(q, ParsingIncompleted, 0);
  }

  lemma ReachThen(p: Parser, a: Bytes, q: Parser, b: Bytes, r: Parser)
    requires Reaches(p, a, q) && Reaches(q, b, r)
    ensures Reaches(p, a + b, r)
  {
    hide Run;
    RunConcat(p, a, b);
  }

  /** A character that the parser appends, or skips, without leaving its state. */
  predicate Absorbs(state: State, c: char) {
    match state
    case RequestMethod => IsToken(c)
    case RequestUri => !IsControl(c) && c != ' '
    case HeaderLws => IsBlank(c)
    case HeaderName => IsToken(c)
    case HeaderValue => !IsControl(c)
    case ChunkSize => IsAlnum(c)
    case ChunkExtensionName => IsAlnum(c) || c == ' '
    case ChunkExtensionValue => IsAlnum(c) || c == ' '
    case ChunkTrailerName => IsAlnum(c)
    case ChunkTrailerValue => IsAlnum(c) || c == ' '
    case _ => false
  }

  function Absorbed(p: Parser, s: string): Parser
    requires InHeader(p.state) ==> p.req.headers != []
  {
    match p.state
    case RequestMethod => p.(req := p.req.(method_ := p.req.method_ + s))
    case RequestUri => p.(req := p.req.(uri := p.req.uri + s))
    case HeaderName => p.(req := WithLast(p.req, Last(p).(name := Last(p).name + s)))
    case HeaderValue => p.(req := WithLast(p.req, Last(p).(value := Last(p).value + s)))
    case ChunkSize => p.(chunkSizeStr := p.chunkSizeStr + s)
    case _ => p
  }

  function WithLast(r: Request, h: Header): Request
    requires r.headers != []
  {
    r.(headers := r.headers[|r.headers| - 1 := h])
  }

  lemma AbsorbOne(p: Parser, c: char)
    requires InHeader(p.state) ==> p.req.headers != []
    requires Absorbs(p.state, c)
    ensures Step(p, c) == On(Absorbed(p, [c]))
  {
  }

  lemma AbsorbMore(p: Parser, a: string, b: string)
    requires InHeader(p.state) ==> p.req.headers != []
    ensures var q := Absorbed(p, a);
            && q.state == p.state && (InHeader(q.state) ==> q.req.headers != [])
            && Absorbed(q, b) == Absorbed(p, a + b)
  {
    assert p.req.method_ + a + b == p.req.method_ + (a + b);
    assert p.req.uri + a + b == p.req.uri + (a + b);
    assert p.chunkSizeStr + a + b == p.chunkSizeStr + (a + b);
    if p.req.headers != [] {
      var h := Last(p);
      assert h.name + a + b == h.name + (a + b);
      assert h.value + a + b == h.value + (a + b);
    }
  }

  lemma {:induction false} Span(p: Parser, s: string)
    requires InHeader(p.state) ==> p.req.headers != []
    requires forall i :: 0 <= i < |s| ==> Absorbs(p.state, s[i])
    ensures s != "" ==> Reaches(p, s, Absorbed(p, s))
    decreases |s|
  {
    if s != "" {
      AbsorbOne(p, s[0]);
      AbsorbMore(p, s[..1], s[1..]);
      assert s[..1] == [s[0]] && s == s[..1] + s[1..];
      var q := Absorbed(p, s[..1]);
      hide Absorbed, Step, Absorbs;
      if |s| == 1 {
        assert s == [s[0]];
        Reach(p, s[0]);
      } else {
        Span(q, s[1..]);
        Reach(p, s[0]);
        ReachThen(p, [s[0]], q, s[1..], Absorbed(q, s[1..]));
      }
    }
  }

  // ----- the request line -----

  /** The parser on the request line, with this method, target and version. */
  function AtLine(state: State, method_: string, uri: string, major: nat, minor: nat): Parser {
    NEW_PARSER.(
      state := state,
      req := EMPTY_REQUEST.(method_ := method_, uri := uri, versionMajor := major, versionMinor := minor))
  }

  lemma MethodRead(m: string)
    requires IsName(m)
    ensures Reaches(NEW_PARSER, m + " ", AtLine(RequestUriStart, m, "", 0, 0))
  {
    var p := AtLine(RequestMethod, m[..1], "", 0, 0);
    assert m[..1] == [m[0]] && m == m[..1] + m[1..];
    assert Step(NEW_PARSER, m[0]) == On(p);
    Reach(NEW_PARSER, m[0]);
    assert AtLine(RequestMethod, m, "", 0, 0) == Absorbed(p, m[1..]);
    Span(p, m[1..]);
    Reach(AtLine(RequestMethod, m, "", 0, 0), ' ');
    hide Step, Absorbed;
    if m[1..] == "" {
      assert m == [m[0]];
    } else {
      ReachThen(NEW_PARSER, m[..1], p, m[1..], AtLine(RequestMethod, m, "", 0, 0));
    }
    ReachThen(NEW_PARSER, m, AtLine(RequestMethod, m, "", 0, 0), " ", AtLine(RequestUriStart, m, "", 0, 0));
  }

  lemma TargetRead(m: string, u: string)
    requires IsTarget(u)
    ensures Reaches(AtLine(RequestUriStart, m, "", 0, 0), u + " ", AtLine(HttpVersion_h, m, u, 0, 0))
  {
    var p := AtLine(RequestUriStart, m, "", 0, 0);
    var q := AtLine(RequestUri, m, u[..1], 0, 0);
    var r := AtLine(RequestUri, m, u, 0, 0);
    assert u[..1] == [u[0]] && u == u[..1] + u[1..];
    Reach(p, u[0]);
    Span(q, u[1..]);
    Reach(r, ' ');
    if u[1..] == "" {
      assert u == [u[0]];
    } else {
      ReachThen(p, u[..1], q, u[1..], r);
    }
    ReachThen(p, u, r, " ", AtLine(HttpVersion_h, m, u, 0, 0));
  }

  lemma NameRead(m: string, u: string)
    ensures Reaches(AtLine(HttpVersion_h, m, u, 0, 0), "HTTP/", AtLine(HttpVersion_majorStart, m, u, 0, 0))
  {
    var p := AtLine(HttpVersion_h, m, u, 0, 0);
    var p1, p2, p3 := p.(state := HttpVersion_ht), p.(state := HttpVersion_htt), p.(state := HttpVersion_http);
    var p4 := p.(state := HttpVersion_slash);
    Reach(p, 'H');
    Reach(p1, 'T');
    Reach(p2, 'T');
    Reach(p3, 'P');
    Reach(p4, '/');
    hide Step;
    ReachThen(p, "H", p1, "T", p2);
    ReachThen(p, "HT", p2, "T", p3);
    ReachThen(p, "HTT", p3, "P", p4);
    ReachThen(p, "HTTP", p4, "/", AtLine(HttpVersion_majorStart, m, u, 0, 0));
  }

  lemma {:induction false} MajorSpan(m: string, u: string, n: nat, s: string)
    requires AllDigits(10, s)
    ensures Reaches(AtLine(HttpVersion_major, m, u, n, 0), s, AtLine(HttpVersion_major, m, u, Number(10, s, n), 0))
    decreases |s|
  {
    var p := AtLine(HttpVersion_major, m, u, n, 0);
    if s != "" {
      assert IsDigitOf(10, s[0]) && s == [s[0]] + s[1..];
      var k := n * 10 + DigitValue(s[0]);
      Reach(p, s[0]);
      MajorSpan(m, u, k, s[1..]);
      hide Step;
      ReachThen(p, [s[0]], AtLine(HttpVersion_major, m, u, k, 0), s[1..],
                AtLine(HttpVersion_major, m, u, Number(10, s, n), 0));
    }
  }

  lemma {:induction false} MinorSpan(m: string, u: string, major: nat, n: nat, s: string)
    requires AllDigits(10, s)
    ensures Reaches(AtLine(HttpVersion_minor, m, u, major, n), s,
              AtLine(HttpVersion_minor, m, u, major, Number(10, s, n)))
    decreases |s|
  {
    var p := AtLine(HttpVersion_minor, m, u, major, n);
    if s != "" {
      assert IsDigitOf(10, s[0]) && s == [s[0]] + s[1..];
      var k := n * 10 + DigitValue(s[0]);
      Reach(p, s[0]);
      MinorSpan(m, u, major, k, s[1..]);
      hide Step;
      ReachThen(p, [s[0]], AtLine(HttpVersion_minor, m, u, major, k), s[1..],
                AtLine(HttpVersion_minor, m, u, major, Number(10, s, n)));
    }
  }

  lemma MajorRead(m: string, u: string, s: string)
    requires IsNumeral(s)
    ensures Reaches(AtLine(HttpVersion_majorStart, m, u, 0, 0), s + ".",
                    AtLine(HttpVersion_minorStart, m, u, Number(10, s, 0), 0))
  {
    var p, d := AtLine(HttpVersion_majorStart, m, u, 0, 0), DigitValue(s[0]);
    var r := AtLine(HttpVersion_major, m, u, Number(10, s, 0), 0);
    assert IsDigitOf(10, s[0]) && s == [s[0]] + s[1..] && Number(10, s, 0) == Number(10, s[1..], d);
    Reach(p, s[0]);
    Reach(r, '.');
    MajorSpan(m, u, d, s[1..]);
    hide Step;
    ReachThen(p, [s[0]], AtLine(HttpVersion_major, m, u, d, 0), s[1..], r);
    ReachThen(p, s, r, ".", AtLine(HttpVersion_minorStart, m, u, Number(10, s, 0), 0));
  }

  lemma MinorRead(m: string, u: string, major: nat, s: string)
    requires IsNumeral(s)
    ensures Reaches(AtLine(HttpVersion_minorStart, m, u, major, 0), s + CRLF,
                    AtLine(HeaderLineStart, m, u, major, Number(10, s, 0)))
  {
    var p, d := AtLine(HttpVersion_minorStart, m, u, major, 0), DigitValue(s[0]);
    var n := Number(10, s, 0);
    var r, e := AtLine(HttpVersion_minor, m, u, major, n), AtLine(HttpVersion_newLine, m, u, major, n);
    assert IsDigitOf(10, s[0]) && s == [s[0]] + s[1..] && n == Number(10, s[1..], d);
    Reach(p, s[0]);
    Reach(r, '\r');
    Reach(e, '\n');
    MinorSpan(m, u, major, d, s[1..]);
    hide Step;
    ReachThen(p, [s[0]], AtLine(HttpVersion_minor, m, u, major, d), s[1..], r);
    ReachThen(r, "\r", e, "\n", AtLine(HeaderLineStart, m, u, major, n));
    ReachThen(p, s, r, CRLF, AtLine(HeaderLineStart, m, u, major, n));
  }

  lemma LineParts(h: Head)
    ensures RequestLine(h) == (h.method_ + " ") + (h.uri + " ") + "HTTP/" + (h.major + ".") + (h.minor + CRLF)
  {
    assert h.uri + " HTTP/" == h.uri + " " + "HTTP/";
    var a, b := h.method_ + " ", "HTTP/" + h.major + "." + h.minor + CRLF;
    assert a + h.uri + " HTTP/" == a + (h.uri + " ") + "HTTP/";
  }

  lemma RequestLineRead(h: Head)
    requires WellFormed(h)
    ensures Reaches(NEW_PARSER, RequestLine(h),
                    AtLine(HeaderLineStart, h.method_, h.uri, Number(10, h.major, 0), Number(10, h.minor, 0)))
  {
    MethodRead(h.method_);
    TargetRead(h.method_, h.uri);
    NameRead(h.method_, h.uri);
    MajorRead(h.method_, h.uri, h.major);
    MinorRead(h.method_, h.uri, Number(10, h.major, 0), h.minor);
    LineParts(h);
    hide *;
    Five(NEW_PARSER, h.method_ + " ", AtLine(RequestUriStart, h.method_, "", 0, 0),
         h.uri + " ", AtLine(HttpVersion_h, h.method_, h.uri, 0, 0),
         "HTTP/", AtLine(HttpVersion_majorStart, h.method_, h.uri, 0, 0),
         h.major + ".", AtLine(HttpVersion_minorStart, h.method_, h.uri, Number(10, h.major, 0), 0),
         h.minor + CRLF, AtLine(HeaderLineStart, h.method_, h.uri, Number(10, h.major, 0), Number(10, h.minor, 0)));
  }

  lemma Five(p: Parser, a: Bytes, q: Parser, b: Bytes, r: Parser, c: Bytes, t: Parser, d: Bytes, u: Parser, e: Bytes,
             v: Parser)
    requires Reaches(p, a, q) && Reaches(q, b, r) && Reaches(r, c, t) && Reaches(t, d, u) && Reaches(u, e, v)
    ensures Reaches(p, a + b + c + d + e, v)
  {
    hide Reaches;
    ReachThen(p, a, q, b, r);
    ReachThen(p, a + b, r, c, t);
    ReachThen(p, a + b + c, t, d, u);
    ReachThen(p, a + b + c + d, u, e, v);
  }

  // ----- the header lines -----

  function WithHeader(p: Parser, state: State, h: Header): Parser {
    p.(state := state, req := p.req.(headers := p.req.headers + [h]))
  }

  /** The parser once the line of its last header has ended. */
  function LineEnded(p: Parser): Parser
    requires p.req.headers != []
  {
    Noted(p).(state := HeaderLineStart)
  }

  lemma ReplaceLast(hs: seq<Header>, g: Header, h: Header)
    ensures (hs + [g])[|hs| := h] == hs + [h]
  {
  }

  lemma NameSpan(p: Parser, name: string)
    requires p.state.HeaderLineStart? && IsName(name)
    ensures Reaches(p, name, WithHeader(p, HeaderName, Header(name, "")))
  {
    var q := WithHeader(p, HeaderName, Header(name[..1], ""));
    var r := WithHeader(p, HeaderName, Header(name, ""));
    assert name[..1] == [name[0]] && name == name[..1] + name[1..];
    assert Step(p, name[0]) == On(q);
    Reach(p, name[0]);
    assert Absorbed(q, name[1..]) == r by {
      ReplaceLast(p.req.headers, Header(name[..1], ""), Header(name, ""));
    }
    Span(q, name[1..]);
    hide Step, Absorbed, WithHeader;
    if name[1..] == "" {
      assert name == [name[0]] && q == r;
    } else {
      ReachThen(p, name[..1], q, name[1..], r);
    }
  }

  lemma NameOfLine(p: Parser, name: string)
    requires p.state.HeaderLineStart? && IsName(name)
    ensures Reaches(p, name + ": ", WithHeader(p, HeaderValue, Header(name, "")))
  {
    var r := WithHeader(p, HeaderName, Header(name, ""));
    var t := WithHeader(p, SpaceBeforeHeaderValue, Header(name, ""));
    assert Step(r, ':') == On(t) && Step(t, ' ') == On(WithHeader(p, HeaderValue, Header(name, "")));
    hide Step, WithHeader, IsName;
    Reach(r, ':');
    Reach(t, ' ');
    hide Reaches;
    NameSpan(p, name);
    ReachThen(r, ":", t, " ", WithHeader(p, HeaderValue, Header(name, "")));
    ReachThen(p, name, r, ": ", WithHeader(p, HeaderValue, Header(name, "")));
  }

  /** From inside a value to the end of the line. */
  lemma ValueRead(p: Parser, s: string)
    requires p.state.HeaderValue? && p.req.headers != [] && NoControl(s)
    ensures Reaches(p, s + CRLF, LineEnded(p.(req := WithLast(p.req, Last(p).(value := Last(p).value + s)))))
  {
    var q := p.(req := WithLast(p.req, Last(p).(value := Last(p).value + s)));
    var r := Noted(q).(state := ExpectingNewline_2);
    Span(p, s);
    Reach(q, '\r');
    Reach(r, '\n');
    assert s == "" ==> q == p by {
      if s == "" {
        assert Last(p).value + s == Last(p).value;
        assert p.req.headers[|p.req.headers| - 1 := Last(p)] == p.req.headers;
      }
    }
    hide Step, WithLast, LineEnded, Noted;
    ReachThen(q, "\r", r, "\n", LineEnded(q));
    if s == "" {
      assert s + CRLF == CRLF;
    } else {
      ReachThen(p, s, q, CRLF, LineEnded(q));
    }
  }

  lemma FirstLineRead(p: Parser, name: string, value: string)
    requires p.state.HeaderLineStart? && IsName(name) && NoControl(value)
    ensures Reaches(p, name + ": " + (value + CRLF), LineEnded(WithHeader(p, HeaderValue, Header(name, value))))
  {
    var q := WithHeader(p, HeaderValue, Header(name, ""));
    var r := WithHeader(p, HeaderValue, Header(name, value));
    NameOfLine(p, name);
    ValueRead(q, value);
    assert q.(req := WithLast(q.req, Last(q).(value := Last(q).value + value))) == r by {
      assert "" + value == value;
      ReplaceLast(p.req.headers, Header(name, ""), Header(name, value));
    }
    hide WithHeader, LineEnded, WithLast;
    ReachThen(p, name + ": ", q, value + CRLF, LineEnded(r));
  }

  function FoldTaken(p: Parser, f: Fold): Parser
    requires p.req.headers != []
  {
    if f.text == "" then p
    else LineEnded(p.(req := WithLast(p.req, Last(p).(value := Last(p).value + f.text))))
  }

  lemma BlanksRead(p: Parser, b: string)
    requires p.state.HeaderLineStart? && p.req.headers != []
    requires b != "" && forall i :: 0 <= i < |b| ==> IsBlank(b[i])
    ensures Reaches(p, b, p.(state := HeaderLws))
  {
    var q := p.(state := HeaderLws);
    assert b[..1] == [b[0]] && b == b[..1] + b[1..];
    Reach(p, b[0]);
    Span(q, b[1..]);
    hide Step;
    if b[1..] == "" {
      assert b == [b[0]];
    } else {
      ReachThen(p, b[..1], q, b[1..], q);
    }
  }

  lemma FoldRead(p: Parser, f: Fold)
    requires p.state.HeaderLineStart? && p.req.headers != [] && WellFormedFold(f)
    ensures Reaches(p, FoldText(f), FoldTaken(p, f))
  {
    if f.text == "" {
      BlankFoldRead(p, f);
    } else {
      TextFoldRead(p, f);
    }
  }

  lemma BlankFoldRead(p: Parser, f: Fold)
    requires p.state.HeaderLineStart? && p.req.headers != [] && WellFormedFold(f) && f.text == ""
    ensures Reaches(p, FoldText(f), FoldTaken(p, f))
  {
    hide Reaches, LineEnded, WithLast, Last;
    var q := p.(state := HeaderLws);
    BlanksRead(p, f.blanks);
    BlankLineRead(q);
    ReachThen(p, f.blanks, q, CRLF, p);
    assert FoldText(f) == f.blanks + CRLF;
  }

  lemma TextFoldRead(p: Parser, f: Fold)
    requires p.state.HeaderLineStart? && p.req.headers != [] && WellFormedFold(f) && f.text != ""
    ensures Reaches(p, FoldText(f), FoldTaken(p, f))
  {
    hide Reaches, NoControl, IsBlank, EqualNoCase, Atoi;
    var q := p.(state := HeaderLws);
    BlanksRead(p, f.blanks);
    TextRead(q, f.text);
    assert Reaches(q, f.text + CRLF, FoldTaken(p, f));
    hide FoldTaken, WellFormedFold, LineEnded;
    ReachThen(p, f.blanks, q, f.text + CRLF, FoldTaken(p, f));
    assert FoldText(f) == f.blanks + (f.text + CRLF);
  }

  lemma BlankLineRead(q: Parser)
    requires q.state.HeaderLws?
    ensures Reaches(q, CRLF, q.(state := HeaderLineStart))
  {
    var r := q.(state := ExpectingNewline_2);
    Reach(q, '\r');
    Reach(r, '\n');
    hide Step;
    ReachThen(q, "\r", r, "\n", q.(state := HeaderLineStart));
  }

  /** The text of a continuation, once its blanks are read. */
  lemma TextRead(q: Parser, text: string)
    requires q.state.HeaderLws? && q.req.headers != [] && NoControl(text) && text != "" && !IsBlank(text[0])
    ensures Reaches(q, text + CRLF, LineEnded(q.(req := WithLast(q.req, Last(q).(value := Last(q).value + text)))))
  {
    var first := q.(state := HeaderValue, req := WithLast(q.req, Last(q).(value := Last(q).value + text[..1])));
    assert text[..1] == [text[0]] && text == text[..1] + text[1..];
    assert Step(q, text[0]) == On(first);
    Reach(q, text[0]);
    ValueRead(first, text[1..]);
    assert text + CRLF == text[..1] + (text[1..] + CRLF);
    var done := LineEnded(q.(req := WithLast(q.req, Last(q).(value := Last(q).value + text))));
    assert LineEnded(first.(req := WithLast(first.req, Last(first).(value := Last(first).value + text[1..]))))
           == done by {
      assert Last(q).value + text[..1] + text[1..] == Last(q).value + text;
      hide Step;
    }
    hide Step, LineEnded, WithLast;
    ReachThen(q, text[..1], first, text[1..] + CRLF, done);
  }

  function FoldsTaken(p: Parser, folds: seq<Fold>): (q: Parser)
    requires p.req.headers != []
    decreases |folds|
  {
    if folds == [] then p else FoldsTaken(FoldTaken(p, folds[0]), folds[1..])
  }

  lemma {:induction false} FoldsRead(p: Parser, folds: seq<Fold>)
    requires p.state.HeaderLineStart? && p.req.headers != []
    requires forall i :: 0 <= i < |folds| ==> WellFormedFold(folds[i])
    ensures Reaches(p, FoldsText(folds), FoldsTaken(p, folds))
    decreases |folds|
  {
    if folds != [] {
      FoldRead(p, folds[0]);
      assert FoldTaken(p, folds[0]).state.HeaderLineStart?;
      hide FoldTaken, WellFormedFold;
      FoldsRead(FoldTaken(p, folds[0]), folds[1..]);
      ReachThen(p, FoldText(folds[0]), FoldTaken(p, folds[0]), FoldsText(folds[1..]), FoldsTaken(p, folds));
    }
  }

  lemma FoldTakenEffect(p: Parser, f: Fold)
    requires p.state.HeaderLineStart? && p.req.headers != []
    ensures var q := FoldTaken(p, f);
            q.state.HeaderLineStart? && q.req == WithLast(p.req, Last(p).(value := Last(p).value + f.text))
  {
    var v := Last(p).value;
    assert v + "" == v && WithLast(p.req, Last(p)) == p.req;
    hide EqualNoCase, Atoi;
  }

  /** The continuations add their texts to the value and change nothing else of the request. */
  lemma {:induction false} FoldsTakenEffect(p: Parser, folds: seq<Fold>)
    requires p.state.HeaderLineStart? && p.req.headers != []
    ensures var q := FoldsTaken(p, folds);
            q.state.HeaderLineStart? && q.req == WithLast(p.req, Last(p).(value := Last(p).value + FoldedText(folds)))
    decreases |folds|
  {
    var v := Last(p).value;
    if folds == [] {
      assert v + "" == v && WithLast(p.req, Last(p)) == p.req;
    } else {
      FoldTakenEffect(p, folds[0]);
      hide FoldTaken;
      FoldsTakenEffect(FoldTaken(p, folds[0]), folds[1..]);
      assert v + folds[0].text + FoldedText(folds[1..]) == v + FoldedText(folds);
    }
  }

  /** At the end of one of its lines, the header with these continuations is a Transfer-Encoding of chunked. */
  predicate FoldsSayChunked(h: Header, folds: seq<Fold>)
    decreases |folds|
  {
    SaysChunked(h) || (folds != [] && FoldsSayChunked(h.(value := h.value + folds[0].text), folds[1..]))
  }

  predicate LineSaysChunked(l: Line) {
    FoldsSayChunked(Header(l.name, l.value), l.folds)
  }

  lemma EndedChunked(p: Parser)
    requires p.req.headers != []
    ensures LineEnded(p).chunked <==> p.chunked || (HasBody(p.req.method_) && SaysChunked(Last(p)))
  {
    hide Atoi, HasBody;
  }

  lemma FoldChunked(p: Parser, f: Fold)
    requires p.req.headers != [] && (HasBody(p.req.method_) && SaysChunked(Last(p)) ==> p.chunked)
    ensures var h := Last(p).(value := Last(p).value + f.text);
            FoldTaken(p, f).chunked <==> p.chunked || (HasBody(p.req.method_) && SaysChunked(h))
  {
    if f.text == "" {
      assert Last(p).value + f.text == Last(p).value;
    } else {
      var q := p.(req := WithLast(p.req, Last(p).(value := Last(p).value + f.text)));
      EndedChunked(q);
      hide LineEnded, HasBody, SaysChunked;
    }
  }

  lemma {:induction false} FoldsChunked(p: Parser, folds: seq<Fold>)
    requires p.state.HeaderLineStart? && p.req.headers != []
    requires HasBody(p.req.method_) && SaysChunked(Last(p)) ==> p.chunked
    ensures FoldsTaken(p, folds).chunked <==> p.chunked || (HasBody(p.req.method_) && FoldsSayChunked(Last(p), folds))
    decreases |folds|
  {
    if folds != [] {
      FoldTakenEffect(p, folds[0]);
      FoldChunked(p, folds[0]);
      hide FoldTaken, SaysChunked, HasBody;
      FoldsChunked(FoldTaken(p, folds[0]), folds[1..]);
    }
  }

  function LineTaken(p: Parser, l: Line): Parser {
    FoldsTaken(LineEnded(WithHeader(p, HeaderValue, Header(l.name, l.value))), l.folds)
  }

  lemma LineRead(p: Parser, l: Line)
    requires p.state.HeaderLineStart? && WellFormedLine(l)
    ensures Reaches(p, LineText(l), LineTaken(p, l))
  {
    var q := LineEnded(WithHeader(p, HeaderValue, Header(l.name, l.value)));
    assert q.state.HeaderLineStart? && q.req.headers != [];
    hide WithHeader, LineEnded, FoldsTaken, WellFormedFold, Reaches, IsName, NoControl, FoldsText;
    FirstLineRead(p, l.name, l.value);
    FoldsRead(q, l.folds);
    ReachThen(p, l.name + ": " + (l.value + CRLF), q, FoldsText(l.folds), LineTaken(p, l));
    assert l.name + ": " + (l.value + CRLF) + FoldsText(l.folds) == LineText(l);
  }

  lemma LineTakenEffect(p: Parser, l: Line)
    ensures var q := LineTaken(p, l);
            q.state.HeaderLineStart? && q.req == p.req.(headers := p.req.headers + [HeaderOf(l)])
  {
    var q := LineEnded(WithHeader(p, HeaderValue, Header(l.name, l.value)));
    FoldsTakenEffect(q, l.folds);
    ReplaceLast(p.req.headers, Header(l.name, l.value), HeaderOf(l));
  }

  lemma LineChunked(p: Parser, l: Line)
    ensures LineTaken(p, l).chunked <==> p.chunked || (HasBody(p.req.method_) && LineSaysChunked(l))
  {
    var q := WithHeader(p, HeaderValue, Header(l.name, l.value));
    EndedChunked(q);
    assert LineEnded(q).req == q.req && LineEnded(q).state.HeaderLineStart?;
    hide LineEnded, SaysChunked, HasBody;
    FoldsChunked(LineEnded(q), l.folds);
  }

  lemma {:induction false} LinesChunked(p: Parser, lines: seq<Line>)
    ensures LinesTaken(p, lines).chunked
            <==> p.chunked || (HasBody(p.req.method_) && exists i :: 0 <= i < |lines| && LineSaysChunked(lines[i]))
    decreases |lines|
  {
    if lines != [] {
      var q := LineTaken(p, lines[0]);
      LineTakenEffect(p, lines[0]);
      LineChunked(p, lines[0]);
      hide LineTaken, LineSaysChunked, HasBody;
      LinesChunked(q, lines[1..]);
      assert forall i :: 0 < i < |lines| ==> lines[i] == lines[1..][i - 1];
    }
  }

  function LinesTaken(p: Parser, lines: seq<Line>): Parser
    decreases |lines|
  {
    if lines == [] then p else LinesTaken(LineTaken(p, lines[0]), lines[1..])
  }

  lemma HeadersJoin(hs: seq<Header>, lines: seq<Line>)
    requires lines != []
    ensures hs + [HeaderOf(lines[0])] + HeadersOf(lines[1..]) == hs + HeadersOf(lines)
  {
  }

  lemma {:induction false} LinesRead(p: Parser, lines: seq<Line>)
    requires p.state.HeaderLineStart?
    requires forall i :: 0 <= i < |lines| ==> WellFormedLine(lines[i])
    ensures var q := LinesTaken(p, lines);
            && Reaches(p, LinesText(lines), q) && q.state.HeaderLineStart?
            && q.req == p.req.(headers := p.req.headers + HeadersOf(lines))
    decreases |lines|
  {
    if lines == [] {
      assert p.req.headers + HeadersOf(lines) == p.req.headers;
    } else {
      var q := LineTaken(p, lines[0]);
      LineRead(p, lines[0]);
      LineTakenEffect(p, lines[0]);
      HeadersJoin(p.req.headers, lines);
      hide LineTaken, WellFormedLine, LineText, Reaches, HeadersOf;
      LinesRead(q, lines[1..]);
      ReachThen(p, LineText(lines[0]), q, LinesText(lines[1..]), LinesTaken(p, lines));
    }
  }

  /** Some header line says chunked at one of its line ends, in a request that may have a body. */
  ghost predicate HeadSaysChunked(h: Head) {
    HasBody(h.method_) && exists i :: 0 <= i < |h.lines| && LineSaysChunked(h.lines[i])
  }

  /** Every well-formed head, folded lines included, is read as the request it stands for; the parser then expects
      chunks if and only if the head says so. */
  lemma HeadRead(h: Head)
    requires WellFormed(h)
    ensures var o := Run(NEW_PARSER, HeadText(h));
            && o.result.ParsingIncompleted? && o.used == |HeadText(h)|
            && o.parser.state.HeaderLineStart? && o.parser.req == RequestOf(h)
            && (o.parser.chunked <==> HeadSaysChunked(h))
  {
    var p := AtLine(HeaderLineStart, h.method_, h.uri, Number(10, h.major, 0), Number(10, h.minor, 0));
    RequestLineRead(h);
    LinesRead(p, h.lines);
    LinesChunked(p, h.lines);
    ReachThen(NEW_PARSER, RequestLine(h), p, LinesText(h.lines), LinesTaken(p, h.lines));
    assert [] + HeadersOf(h.lines) == HeadersOf(h.lines);
    hide LinesTaken, RequestLine, LinesText, LineSaysChunked, HasBody, WellFormed;
  }
}
