/** How the body of a request is framed, in the words of the messages themselves. */
module RequestFraming {
  import opened Wrappers
  import opened Ascii
  import opened RequestMachine
  import opened RequestProperties
  import opened RequestText
  import opened RequestBody

  /** A request line of HTTP/1.1. */
  function FirstLine(m: string, u: string): string {
    m + " " + u + " HTTP/1.1\r\n"
  }

  ghost predicate GoodLines(lines: seq<Line>) {
    forall i :: 0 <= i < |lines| ==> WellFormedLine(lines[i])
  }

  /** No line has this name, in whatever case. */
  ghost predicate NoneNamed(lines: seq<Line>, name: string) {
    forall i :: 0 <= i < |lines| ==> !EqualNoCase(lines[i].name, name)
  }

  lemma {:induction false} LinesConcat(a: seq<Line>, b: seq<Line>)
    ensures LinesText(a + b) == LinesText(a) + LinesText(b)
  {
    hide LineText;
    if a == [] {
      assert a + b == b;
    } else {
      LinesConcat(a[1..], b);
      assert (a + b)[1..] == a[1..] + b;
    }
  }

  lemma OneLine(before: seq<Line>, l: Line, after: seq<Line>)
    requires l.folds == []
    ensures LinesText(before + [l] + after)
            == LinesText(before) + (l.name + ": " + l.value + "\r\n") + LinesText(after)
  {
    SingleLine(l);
    hide LinesText;
    LinesConcat(before + [l], after);
    LinesConcat(before, [l]);
  }

  lemma SingleLine(l: Line)
    requires l.folds == []
    ensures LinesText([l]) == l.name + ": " + l.value + "\r\n"
  {
    assert LinesText([l]) == LineText(l) + LinesText([]);
    assert LineText(l) == l.name + ": " + l.value + "\r\n" + "";
  }

  lemma {:induction false} NotChunked(h: Header, folds: seq<Fold>)
    requires !EqualNoCase(h.name, "Transfer-Encoding")
    ensures !FoldsSayChunked(h, folds)
    decreases |folds|
  {
    hide EqualNoCase;
    if folds != [] {
      NotChunked(h.(value := h.value + folds[0].text), folds[1..]);
    }
  }

  lemma NoneSaysChunked(lines: seq<Line>)
    requires NoneNamed(lines, "Transfer-Encoding")
    ensures forall i :: 0 <= i < |lines| ==> !LineSaysChunked(lines[i])
  {
    hide EqualNoCase, FoldsSayChunked;
    forall i | 0 <= i < |lines|
      ensures !LineSaysChunked(lines[i])
    {
      NotChunked(Header(lines[i].name, lines[i].value), lines[i].folds);
    }
  }

  lemma {:induction false} NoneAnnounces(hs: seq<Header>, tail: seq<Header>)
    requires forall i :: 0 <= i < |tail| ==> !EqualNoCase(tail[i].name, "Content-Length")
    ensures Announced(hs + tail) == Announced(hs)
    decreases |tail|
  {
    hide EqualNoCase, Atoi;
    if tail == [] {
      assert hs + tail == hs;
    } else {
      var front := tail[..|tail| - 1];
      NoneAnnounces(hs, front);
      assert hs + tail == hs + front + [tail[|tail| - 1]];
      assert (hs + tail)[..|hs + tail| - 1] == hs + front;
    }
  }

  lemma AnnouncedIn(before: seq<Line>, l: Line, after: seq<Line>, n: nat)
    requires l == Line(l.name, Text(10, n), []) && EqualNoCase(l.name, "Content-Length") && n < 0x1_0000_0000_0000_0000
    requires NoneNamed(after, "Content-Length")
    ensures Announced(HeadersOf(before + [l] + after)) == n
  {
    var hs, h, tail := HeadersOf(before), HeaderOf(l), HeadersOf(after);
    assert HeadersOf(before + [l] + after) == hs + [h] + tail;
    assert h == Header(l.name, Text(10, n));
    ReadBack(n);
    NoneAnnounces(hs + [h], tail);
    assert (hs + [h])[|hs|] == h;
  }

  /** A POST or PUT with a length, whatever case its name is in: the body is stored as it is, and nothing after it is
      read. */
  lemma LengthRead(m: string, u: string, before: seq<Line>, name: string, after: seq<Line>, body: Bytes, rest: Bytes)
    requires (m == "POST" || m == "PUT") && IsTarget(u) && GoodLines(before) && GoodLines(after)
    requires EqualNoCase(name, "Content-Length")
    requires NoneNamed(before, "Transfer-Encoding") && NoneNamed(after, "Transfer-Encoding")
    requires NoneNamed(after, "Content-Length") && 0 < |body| < 0x1_0000_0000_0000_0000
    ensures var head := FirstLine(m, u) + LinesText(before) + (name + ": " + Text(10, |body|) + "\r\n")
                        + LinesText(after) + "\r\n";
            var o := Run(NEW_PARSER, head + body + rest);
            && o.result.ParsingCompleted? && o.used == |head| + |body|
            && o.parser.req.method_ == m && o.parser.req.uri == u && o.parser.req.content == body
  {
    hide *;
    var l := Line(name, Text(10, |body|), []);
    var h := Head(m, u, "1", "1", before + [l] + after);
    LengthAnnounced(h, before, name, after, |body|);
    RequestWithLength(h, '\n', body, rest);
    HeadSpelt(h, before, l, after);
    EndSpelt(HeadText(h), body, rest);
    KeepAliveKeeps(RequestOf(h));
    RequestParts(h);
  }

  lemma RequestParts(h: Head)
    ensures RequestOf(h).method_ == h.method_ && RequestOf(h).uri == h.uri && RequestOf(h).content == ""
  {
  }

  lemma LengthAnnounced(h: Head, before: seq<Line>, name: string, after: seq<Line>, n: nat)
    requires EqualNoCase(name, "Content-Length")
    requires (h.method_ == "POST" || h.method_ == "PUT") && IsTarget(h.uri) && h.major == "1" && h.minor == "1"
    requires h.lines == before + [Line(name, Text(10, n), [])] + after
    requires GoodLines(before) && GoodLines(after)
    requires NoneNamed(before, "Transfer-Encoding") && NoneNamed(after, "Transfer-Encoding")
    requires NoneNamed(after, "Content-Length") && n < 0x1_0000_0000_0000_0000
    ensures WellFormed(h) && Announces(h, n)
  {
    hide Announced, LineSaysChunked, WellFormedLine, IsTarget, IsName, EqualNoCase, HeadersOf, IsNumeral;
    var l := Line(name, Text(10, n), []);
    LengthLine(name, n);
    MethodsAreNames();
    AnnouncedIn(before, l, after, n);
    NoneSaysChunked(h.lines);
  }

  lemma KeepAliveKeeps(r: Request)
    ensures WithKeepAlive(r) == r.(keepAlive := WithKeepAlive(r).keepAlive)
  {
  }

  /** The case of its letters does not matter to whether a text is a name. */
  lemma NameInAnyCase(s: string, t: string)
    requires EqualNoCase(s, t) && IsName(t)
    ensures IsName(s)
  {
    forall i | 0 <= i < |s|
      ensures IsToken(s[i])
    {
      SameToken(s[i], t[i]);
    }
  }

  lemma SameToken(c: char, d: char)
    requires ToLower(c) == ToLower(d) && IsToken(d)
    ensures IsToken(c)
  {
  }

  lemma KnownNames()
    ensures IsName("Content-Length") && IsName("Transfer-Encoding") && IsName("chunked")
    ensures !EqualNoCase("Content-Length", "Transfer-Encoding")
  {
    hide IsToken;
    NameLetters();
    var name := "Content-Length";
    assert forall i :: 0 <= i < |name| ==> IsToken(name[i]);
    name := "Transfer-Encoding";
    assert forall i :: 0 <= i < |name| ==> IsToken(name[i]);
    name := "chunked";
    assert forall i :: 0 <= i < |name| ==> IsToken(name[i]);
  }

  lemma NameLetters()
    ensures forall c :: c in "CTLE-acdefghiknorstu" ==> IsToken(c)
  {
  }

  lemma LengthLine(name: string, n: nat)
    requires EqualNoCase(name, "Content-Length")
    ensures WellFormedLine(Line(name, Text(10, n), [])) && !EqualNoCase(name, "Transfer-Encoding")
  {
    KnownNames();
    NameInAnyCase(name, "Content-Length");
    assert forall i :: 0 <= i < |Text(10, n)| ==> IsDigitOf(10, Text(10, n)[i]);
  }

  lemma ChunkedLine(name: string, value: string)
    requires EqualNoCase(name, "Transfer-Encoding") && EqualNoCase(value, "chunked")
    ensures WellFormedLine(Line(name, value, [])) && LineSaysChunked(Line(name, value, []))
  {
    KnownNames();
    NameInAnyCase(name, "Transfer-Encoding");
    NameInAnyCase(value, "chunked");
    hide EqualNoCase;
    assert forall i :: 0 <= i < |value| ==> IsToken(value[i]);
  }

  lemma MethodsAreNames()
    ensures IsName("POST") && IsName("PUT") && IsNumeral("1")
  {
    hide IsToken;
    MethodLetters();
  }

  lemma MethodLetters()
    ensures IsToken('P') && IsToken('O') && IsToken('S') && IsToken('T') && IsToken('U')
  {
  }

  lemma HeadSpelt(h: Head, before: seq<Line>, l: Line, after: seq<Line>)
    requires h.lines == before + [l] + after && h.major == "1" && h.minor == "1" && l.folds == []
    ensures HeadText(h) == FirstLine(h.method_, h.uri) + LinesText(before) + (l.name + ": " + l.value + "\r\n")
                           + LinesText(after)
  {
    hide LinesText;
    OneLine(before, l, after);
    FirstLineSpelt(h);
    hide RequestLine, FirstLine;
    Regroup(FirstLine(h.method_, h.uri), LinesText(before), l.name + ": " + l.value + "\r\n", LinesText(after));
  }

  lemma FirstLineSpelt(h: Head)
    requires h.major == "1" && h.minor == "1"
    ensures RequestLine(h) == FirstLine(h.method_, h.uri)
  {
    var a := h.method_ + " " + h.uri;
    assert " HTTP/" + "1" + "." + "1" + "\r\n" == " HTTP/1.1\r\n";
    assert a + " HTTP/" + "1" + "." + "1" + "\r\n" == a + (" HTTP/" + "1" + "." + "1" + "\r\n");
  }

  lemma Regroup(a: Bytes, b: Bytes, c: Bytes, d: Bytes)
    ensures a + (b + c + d) == a + b + c + d
  {
  }

  lemma EndSpelt(head: Bytes, body: Bytes, rest: Bytes)
    ensures head + ("\r" + ['\n']) + body + rest == head + "\r\n" + body + rest
  {
  }

  /** A POST or PUT in chunks: the chunks are decoded, and nothing after them is read, whatever other lines announce. */
  lemma ChunksRead(m: string, u: string, before: seq<Line>, name: string, value: string, after: seq<Line>, b: Body,
                   rest: Bytes)
    requires EqualNoCase(name, "Transfer-Encoding") && EqualNoCase(value, "chunked")
    requires (m == "POST" || m == "PUT") && IsTarget(u) && GoodLines(before) && GoodLines(after) && WellFormedBody(b)
    ensures var head := FirstLine(m, u) + LinesText(before) + (name + ": " + value + "\r\n") + LinesText(after)
                        + "\r\n";
            var o := Run(NEW_PARSER, head + BodyText(b) + rest);
            && o.result.ParsingCompleted? && o.used == |head| + |BodyText(b)|
            && o.parser.req.method_ == m && o.parser.req.uri == u && o.parser.req.content == DataOf(b.chunks)
  {
    var l := Line(name, value, []);
    var h := Head(m, u, "1", "1", before + [l] + after);
    ChunkedLine(name, value);
    MethodsAreNames();
    hide Run, LineSaysChunked, WellFormedLine, IsTarget, IsName, LinesText, WithKeepAlive, EqualNoCase, HeadersOf,
      BodyText, WellFormedBody, DataOf;
    assert h.lines[|before|] == l && HeadSaysChunked(h);
    RequestWithChunks(h, '\n', b, rest);
    HeadSpelt(h, before, l, after);
    EndSpelt(HeadText(h), BodyText(b), rest);
    KeepAliveKeeps(RequestOf(h));
  }

  /** Any other method: the request ends with its head, whatever its lines announce, and has no content. */
  lemma NoBodyRead(h: Head, rest: Bytes)
    requires WellFormed(h) && h.method_ != "POST" && h.method_ != "PUT"
    ensures var o := Run(NEW_PARSER, HeadText(h) + "\r\n" + rest);
            && o.result.ParsingCompleted? && o.used == |HeadText(h)| + 2
            && o.parser.req.method_ == h.method_ && o.parser.req.content == ""
  {
    hide Run, WellFormed, WithKeepAlive, HeadersOf, Number, HeadText;
    RequestWithoutBody(h, rest);
    KeepAliveKeeps(RequestOf(h));
  }

  /** A POST or PUT that announces nothing has no content either. */
  lemma SilentRead(h: Head, rest: Bytes)
    requires WellFormed(h) && (h.method_ == "POST" || h.method_ == "PUT")
    requires NoneNamed(h.lines, "Content-Length") && NoneNamed(h.lines, "Transfer-Encoding")
    ensures var o := Run(NEW_PARSER, HeadText(h) + "\r\n" + rest);
            && o.result.ParsingCompleted? && o.used == |HeadText(h)| + 2
            && o.parser.req.method_ == h.method_ && o.parser.req.content == ""
  {
    NoneSaysChunked(h.lines);
    NoneAnnounces([], HeadersOf(h.lines));
    assert [] + HeadersOf(h.lines) == HeadersOf(h.lines);
    hide Run, WellFormed, WithKeepAlive, HeadersOf, Number, HeadText, LineSaysChunked, EqualNoCase;
    RequestWithoutBody(h, rest);
    KeepAliveKeeps(RequestOf(h));
  }

  /** The connection is kept alive if the first Connection header says so, in whatever case, and without one from
      HTTP/1.1 on, but not for later minor versions. */
  lemma KeepAliveMeans(r: Request, i: nat)
    requires !r.keepAlive && i <= |r.headers|
    requires forall j :: 0 <= j < i ==> !EqualNoCase(r.headers[j].name, "Connection")
    requires i < |r.headers| ==> EqualNoCase(r.headers[i].name, "Connection")
    ensures WithKeepAlive(r).keepAlive
            <==> if i < |r.headers| then EqualNoCase(r.headers[i].value, "Keep-Alive")
                 else r.versionMajor >= 2 || (r.versionMajor == 1 && r.versionMinor == 1)
  {
    hide EqualNoCase;
  }
}
