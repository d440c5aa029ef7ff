/** Headers that a request may carry without getting another key. */
module KeyHeaders {
  import W = Wrappers
  import opened Ascii
  import opened RequestMachine
  import opened RequestText
  import opened RequestBody
  import opened RequestProperties
  import opened RequestLanguage
  import opened HeaderMap
  import opened RequestKey
  import Framing = RequestFraming

  /** The message with one more header line, before line `j`. */
  function WithLineAt(m: Message, j: nat, l: Line): (r: Message)
    requires !m.Simple? && j <= |m.h.lines|
    ensures !r.Simple?
  {
    var h := m.h.(lines := LinesWith(m.h.lines, j, l));
    match m
    case Plain(_) => Plain(h)
    case OfLength(_, c, body) => OfLength(h, c, body)
    case OfChunks(_, c, b) => OfChunks(h, c, b)
  }

  lemma {:induction false} AnnouncedWithout(a: seq<Header>, h: Header, b: seq<Header>)
    requires !IsLength(h)
    ensures Announced(a + [h] + b) == Announced(a + b)
    decreases |b|
  {
    hide IsLength, Atoi;
    if b == [] {
      assert a + [h] + b == a + [h] && a + b == a && (a + [h])[..|a|] == a;
    } else {
      var front := b[..|b| - 1];
      AnnouncedWithout(a, h, front);
      assert (a + [h] + b)[..|a + [h] + b| - 1] == a + [h] + front;
      assert (a + b)[..|a + b| - 1] == a + front;
    }
  }

  lemma HeadersWith(lines: seq<Line>, j: nat, l: Line)
    requires j <= |lines|
    ensures HeadersOf(LinesWith(lines, j, l)) == HeadersOf(lines[..j]) + [HeaderOf(l)] + HeadersOf(lines[j..])
    ensures HeadersOf(lines) == HeadersOf(lines[..j]) + HeadersOf(lines[j..])
  {
    hide HeaderOf;
  }

  function LinesWith(lines: seq<Line>, j: nat, l: Line): seq<Line>
    requires j <= |lines|
  {
    lines[..j] + [l] + lines[j..]
  }

  /** Line `i` moves up if it comes after the new one. */
  lemma LineMoves(lines: seq<Line>, j: nat, l: Line, i: nat)
    requires j <= |lines| && i < |lines|
    ensures var more := LinesWith(lines, j, l);
            |more| == |lines| + 1 && more[j] == l && more[if i < j then i else i + 1] == lines[i]
  {
  }

  /** Every line but the new one was there before. */
  lemma LineWas(lines: seq<Line>, j: nat, l: Line, i: nat)
    requires j <= |lines| && i <= |lines|
    ensures var more := LinesWith(lines, j, l);
            |more| == |lines| + 1 && more[i] == if i == j then l else lines[if i < j then i else i - 1]
  {
  }

  lemma GoodWith(h: Head, j: nat, l: Line)
    requires j <= |h.lines| && WellFormedLine(l)
    ensures WellFormed(h.(lines := LinesWith(h.lines, j, l))) <==> WellFormed(h)
  {
    hide IsName, IsTarget, IsNumeral, WellFormedLine, LinesWith;
    var g := h.(lines := LinesWith(h.lines, j, l));
    LineWas(h.lines, j, l, j);
    if WellFormed(h) {
      forall i | 0 <= i < |g.lines|
        ensures WellFormedLine(g.lines[i])
      {
        LineWas(h.lines, j, l, i);
      }
    }
    if WellFormed(g) {
      forall i | 0 <= i < |h.lines|
        ensures WellFormedLine(h.lines[i])
      {
        LineMoves(h.lines, j, l, i);
      }
    }
  }

  lemma ChunkedWith(h: Head, j: nat, l: Line)
    requires j <= |h.lines| && !LineSaysChunked(l)
    ensures HeadSaysChunked(h.(lines := LinesWith(h.lines, j, l))) <==> HeadSaysChunked(h)
  {
    hide LineSaysChunked, LinesWith, HasBody;
    var g := h.(lines := LinesWith(h.lines, j, l));
    if HeadSaysChunked(h) {
      var i :| 0 <= i < |h.lines| && LineSaysChunked(h.lines[i]);
      LineMoves(h.lines, j, l, i);
      assert LineSaysChunked(g.lines[if i < j then i else i + 1]);
    }
    LineWas(h.lines, j, l, 0);
    if HeadSaysChunked(g) {
      var i :| 0 <= i < |g.lines| && LineSaysChunked(g.lines[i]);
      LineWas(h.lines, j, l, i);
      assert LineSaysChunked(h.lines[if i < j then i else i - 1]);
    }
  }

  /** A line that says nothing about the body. */
  lemma SameFraming(h: Head, j: nat, l: Line)
    requires j <= |h.lines| && WellFormedLine(l)
    requires !EqualNoCase(l.name, "Content-Length") && !EqualNoCase(l.name, "Transfer-Encoding")
    ensures var g := h.(lines := LinesWith(h.lines, j, l));
            && (WellFormed(g) <==> WellFormed(h)) && (HeadSaysChunked(g) <==> HeadSaysChunked(h))
            && Announced(HeadersOf(g.lines)) == Announced(HeadersOf(h.lines))
  {
    Framing.NotChunked(Header(l.name, l.value), l.folds);
    assert !LineSaysChunked(l) && !IsLength(HeaderOf(l));
    hide *;
    GoodWith(h, j, l);
    ChunkedWith(h, j, l);
    HeadersWith(h.lines, j, l);
    AnnouncedWithout(HeadersOf(h.lines[..j]), HeaderOf(l), HeadersOf(h.lines[j..]));
  }

  lemma StillMessage(m: Message, j: nat, l: Line)
    requires WellFormedMessage(m) && !m.Simple? && j <= |m.h.lines| && WellFormedLine(l)
    requires !EqualNoCase(l.name, "Content-Length") && !EqualNoCase(l.name, "Transfer-Encoding")
    ensures WellFormedMessage(WithLineAt(m, j, l))
  {
    hide WellFormed, WellFormedBody, HeadSaysChunked, HeadersOf, Announced, EqualNoCase, LinesWith;
    SameFraming(m.h, j, l);
  }

  /** What is read of a message, whatever follows it. */
  lemma MessageOutcome(m: Message, rest: W.Bytes)
    requires WellFormedMessage(m) && !m.Simple?
    ensures var o, r := Run(NEW_PARSER, MessageText(m) + rest), RequestOf(m.h);
            && o.result.ParsingCompleted?
            && o.parser.req.method_ == r.method_ && o.parser.req.uri == r.uri
            && o.parser.req.versionMajor == r.versionMajor && o.parser.req.versionMinor == r.versionMinor
            && o.parser.req.headers == r.headers
  {
    hide Run, WellFormed, HeadText, BodyText, WellFormedBody, HeadSaysChunked, Announces, RequestOf, WithKeepAlive;
    Framing.KeepAliveKeeps(RequestOf(m.h));
    match m
    case Plain(h) => RequestWithoutBody(h, rest);
    case OfLength(h, c, body) => RequestWithLength(h, c, body, rest);
    case OfChunks(h, c, b) => RequestWithChunks(h, c, b, rest);
  }

  lemma NamesApart(name: string)
    requires name == "Range" || name == "Proxy-Connection" || name == "Upgrade-Insecure-Requests"
    ensures !EqualNoCase(name, "Content-Length") && !EqualNoCase(name, "Transfer-Encoding")
  {
  }

  /** A header with one of these names can be added to any received request, folded or not, at any place, without
      getting it another key: two clients that differ in it share a response. */
  lemma KeyIgnoresHeader(m: Message, j: nat, l: Line, rest: W.Bytes)
    requires WellFormedMessage(m) && !m.Simple? && j <= |m.h.lines| && WellFormedLine(l)
    requires l.name == "Range" || l.name == "Proxy-Connection" || l.name == "Upgrade-Insecure-Requests"
    ensures WellFormedMessage(WithLineAt(m, j, l))
    ensures Key(MessageText(WithLineAt(m, j, l)) + rest) == Key(MessageText(m) + rest)
  {
    hide Run, WellFormed, WellFormedMessage, HeadersOf, Normalized, MessageText, EqualNoCase, Printed, Url.Parse,
      Number, LinesWith;
    var g := WithLineAt(m, j, l);
    NamesApart(l.name);
    StillMessage(m, j, l);
    HeadersWith(m.h.lines, j, l);
    NameOf(l);
    RemovedAnywhere(HeadersOf(m.h.lines[..j]), HeaderOf(l), HeadersOf(m.h.lines[j..]));
    MessageOutcome(m, rest);
    MessageOutcome(g, rest);
  }

  lemma NameOf(l: Line)
    ensures HeaderOf(l).name == l.name
  {
  }

  /** Every request with a key is such a message, or one of HTTP/0.9, which has no headers. */
  lemma KeyOfMessage(text: W.Bytes) returns (m: Message, rest: W.Bytes)
    requires Key(text).Some?
    ensures WellFormedMessage(m) && text == MessageText(m) + rest
  {
    var n := Run(NEW_PARSER, text).used;
    hide Run, WellFormedMessage, MessageText, Printed, Url.Parse, Normalized;
    Language(text, n);
    m :| WellFormedMessage(m) && text[..n] == MessageText(m);
    rest := text[n..];
  }
}
