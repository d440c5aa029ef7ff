/** Whole messages: the three ways a body is framed (section 6 of RFC 9112) and the chunked coding
    (section 7.1 of RFC 9112). */
module RequestBody {
  import opened Wrappers
  import opened Ascii
  import opened RequestMachine
  import opened RequestProperties
  import opened RequestText

  // ----- the chunked coding -----

  datatype Extension = NoExtension | Named(name: string) | Valued(name: string, value: string)

  /** `size` is the text of the chunk size. */
  datatype Chunk = Chunk(size: string, extension: Extension, data: Bytes)

  datatype Trailer = Trailer(name: string, value: string)

  datatype Body = Body(chunks: seq<Chunk>, size: string, extension: Extension, trailers: seq<Trailer>)

  predicate IsWord(s: string) {
    forall i :: 0 <= i < |s| ==> IsAlnum(s[i])
  }

  predicate IsWords(s: string) {
    forall i :: 0 <= i < |s| ==> IsAlnum(s[i]) || s[i] == ' '
  }

  predicate WellFormedExtension(e: Extension) {
    match e
    case NoExtension => true
    case Named(name) => IsWords(name)
    case Valued(name, value) => IsWords(name) && IsWords(value)
  }

  predicate WellFormedChunk(c: Chunk) {
    IsWord(c.size) && Strtol16(c.size) == |c.data| > 0 && WellFormedExtension(c.extension)
  }

  predicate WellFormedTrailer(t: Trailer) {
    t.name != "" && IsAlpha(t.name[0]) && IsWord(t.name) && IsWords(t.value)
  }

  predicate WellFormedBody(b: Body) {
    && (forall i :: 0 <= i < |b.chunks| ==> WellFormedChunk(b.chunks[i]))
    && IsWord(b.size) && Strtol16(b.size) == 0 && WellFormedExtension(b.extension)
    && (forall i :: 0 <= i < |b.trailers| ==> WellFormedTrailer(b.trailers[i]))
  }

  function ExtensionText(e: Extension): string {
    match e
    case NoExtension => ""
    case Named(name) => ";" + name
    case Valued(name, value) => ";" + name + "=" + value
  }

  function SizeText(size: string, e: Extension): string {
    size + ExtensionText(e) + CRLF
  }

  function ChunkText(c: Chunk): Bytes {
    SizeText(c.size, c.extension) + c.data + CRLF
  }

  function ChunksText(chunks: seq<Chunk>): Bytes {
    if chunks == [] then "" else ChunkText(chunks[0]) + ChunksText(chunks[1..])
  }

  function TrailerText(t: Trailer): string {
    t.name + ":" + t.value + CRLF
  }

  function TrailersText(trailers: seq<Trailer>): string {
    if trailers == [] then "" else TrailerText(trailers[0]) + TrailersText(trailers[1..])
  }

  function BodyText(b: Body): Bytes {
    ChunksText(b.chunks) + SizeText(b.size, b.extension) + TrailersText(b.trailers) + CRLF
  }

  function DataOf(chunks: seq<Chunk>): Bytes {
    if chunks == [] then "" else chunks[0].data + DataOf(chunks[1..])
  }

  // ----- one chunk -----

  /** A CR that ends the size or its extension. */
  lemma SizeEnds(p: Parser)
    requires p.state.ChunkSize? || p.state.ChunkExtensionName? || p.state.ChunkExtensionValue?
    ensures Reaches(p, "\r", p.(state := ChunkSizeNewLine))
  {
    Reach(p, '\r');
  }

  lemma ExtensionNameRead(p: Parser, name: string)
    requires p.state.ChunkSize? && IsWords(name)
    ensures Reaches(p, ";" + name, p.(state := ChunkExtensionName))
  {
    Reach(p, ';');
    Span(p.(state := ChunkExtensionName), name);
    ReadOn(p, ";", p.(state := ChunkExtensionName), name);
  }

  lemma ExtensionValueRead(p: Parser, value: string)
    requires p.state.ChunkExtensionName? && IsWords(value)
    ensures Reaches(p, "=" + value, p.(state := ChunkExtensionValue))
  {
    Reach(p, '=');
    Span(p.(state := ChunkExtensionValue), value);
    ReadOn(p, "=", p.(state := ChunkExtensionValue), value);
  }

  lemma ExtensionRead(p: Parser, e: Extension)
    requires p.state.ChunkSize? && WellFormedExtension(e)
    ensures Reaches(p, ExtensionText(e) + "\r", p.(state := ChunkSizeNewLine))
  {
    hide Step, Reaches;
    var q, r, done := p.(state := ChunkExtensionName), p.(state := ChunkExtensionValue), p.(state := ChunkSizeNewLine);
    match e
    case NoExtension =>
      SizeEnds(p);
      assert "" + "\r" == "\r";
    case Named(name) =>
      ExtensionNameRead(p, name);
      SizeEnds(q);
      ReachThen(p, ";" + name, q, "\r", done);
    case Valued(name, value) =>
      ExtensionNameRead(p, name);
      ExtensionValueRead(q, value);
      SizeEnds(r);
      ReachThen(p, ";" + name, q, "=" + value, r);
      ReachThen(p, ";" + name + ("=" + value), r, "\r", done);
      assert ";" + name + ("=" + value) == ExtensionText(e);
  }

  /** Text that is skipped leaves the parser where it is. */
  lemma ReadOn(p: Parser, a: Bytes, q: Parser, s: Bytes)
    requires Reaches(p, a, q) && (s == "" || Reaches(q, s, q))
    ensures Reaches(p, a + s, q)
  {
    if s == "" {
      assert a + s == a;
    } else {
      ReachThen(p, a, q, s, q);
    }
  }

  /** The parser after a line with a chunk size. */
  function Sized(p: Parser, n: nat): Parser {
    p.(state := if n == 0 then ChunkSizeNewLine_2 else ChunkData, chunkSize := n, chunkSizeStr := "")
  }

  lemma SizeLineEnds(p: Parser, size: string)
    requires p.state.ChunkSizeNewLine? && p.chunkSizeStr == size
    ensures Reaches(p, "\n", Sized(p, Strtol16(size)))
  {
    assert Step(p, '\n') == StepSize(p, '\n');
    Reach(p, '\n');
  }

  lemma DigitsRead(p: Parser, size: string)
    requires p.state.ChunkSize? && p.chunkSizeStr == "" && IsWord(size)
    ensures size != "" ==> Reaches(p, size, p.(chunkSizeStr := size))
  {
    assert "" + size == size;
    Span(p, size);
  }

  lemma SizeRead(p: Parser, size: string, e: Extension)
    requires p.state.ChunkSize? && p.chunkSizeStr == "" && IsWord(size) && WellFormedExtension(e)
    ensures Reaches(p, SizeText(size, e), Sized(p, Strtol16(size)))
  {
    hide Step, Strtol16, Reaches;
    var q := p.(chunkSizeStr := size);
    var r := q.(state := ChunkSizeNewLine);
    DigitsRead(p, size);
    ExtensionRead(q, e);
    SizeLineEnds(r, size);
    ReachThen(q, ExtensionText(e) + "\r", r, "\n", Sized(p, Strtol16(size)));
    assert ExtensionText(e) + "\r" + "\n" == ExtensionText(e) + CRLF;
    if size == "" {
      assert SizeText(size, e) == ExtensionText(e) + CRLF && p == q;
    } else {
      ReachThen(p, size, q, ExtensionText(e) + CRLF, Sized(p, Strtol16(size)));
      assert size + (ExtensionText(e) + CRLF) == SizeText(size, e);
    }
  }

  function WithContent(p: Parser, data: Bytes): Parser {
    p.(req := p.req.(content := p.req.content + data))
  }

  lemma {:induction false} DataRead(p: Parser, data: Bytes)
    requires p.state.ChunkData? && p.chunkSize == |data| > 0
    ensures Reaches(p, data, WithContent(p, data).(state := ChunkDataNewLine_1, chunkSize := 0))
    decreases |data|
  {
    var done := WithContent(p, data).(state := ChunkDataNewLine_1, chunkSize := 0);
    Reach(p, data[0]);
    if |data| == 1 {
      assert data == [data[0]];
    } else {
      var q := WithContent(p, [data[0]]).(chunkSize := p.chunkSize - 1);
      assert Step(p, data[0]) == On(q);
      DataRead(q, data[1..]);
      assert data == [data[0]] + data[1..];
      assert p.req.content + [data[0]] + data[1..] == p.req.content + data;
      hide Step;
      ReachThen(p, [data[0]], q, data[1..], done);
    }
  }

  lemma DataEnds(p: Parser)
    requires p.state.ChunkDataNewLine_1?
    ensures Reaches(p, CRLF, p.(state := ChunkSize))
  {
    var q := p.(state := ChunkDataNewLine_2);
    assert Step(p, '\r') == On(q) && Step(q, '\n') == On(p.(state := ChunkSize));
    hide Step;
    Reach(p, '\r');
    Reach(q, '\n');
    ReachThen(p, "\r", q, "\n", p.(state := ChunkSize));
  }

  lemma ChunkRead(p: Parser, c: Chunk)
    requires p.state.ChunkSize? && p.chunkSizeStr == "" && p.chunkSize == 0 && WellFormedChunk(c)
    ensures Reaches(p, ChunkText(c), WithContent(p, c.data))
  {
    var q := Sized(p, |c.data|);
    var r := WithContent(p, c.data).(state := ChunkDataNewLine_1);
    assert r == WithContent(q, c.data).(state := ChunkDataNewLine_1, chunkSize := 0);
    assert r.(state := ChunkSize) == WithContent(p, c.data);
    SizeRead(p, c.size, c.extension);
    DataRead(q, c.data);
    DataEnds(r);
    hide WithContent, Reaches, SizeText;
    ReachThen(p, SizeText(c.size, c.extension), q, c.data, r);
    ReachThen(p, SizeText(c.size, c.extension) + c.data, r, CRLF, WithContent(p, c.data));
  }

  lemma {:induction false} ChunksRead(p: Parser, chunks: seq<Chunk>)
    requires p.state.ChunkSize? && p.chunkSizeStr == "" && p.chunkSize == 0
    requires forall i :: 0 <= i < |chunks| ==> WellFormedChunk(chunks[i])
    ensures Reaches(p, ChunksText(chunks), WithContent(p, DataOf(chunks)))
    decreases |chunks|
  {
    Contents(p, "", "");
    if chunks != [] {
      Contents(p, chunks[0].data, DataOf(chunks[1..]));
      hide WellFormedChunk, ChunkText, WithContent, Reaches;
      var q := WithContent(p, chunks[0].data);
      ChunkRead(p, chunks[0]);
      ChunksRead(q, chunks[1..]);
      ReachThen(p, ChunkText(chunks[0]), q, ChunksText(chunks[1..]), WithContent(p, DataOf(chunks)));
    }
  }

  lemma Contents(p: Parser, a: Bytes, b: Bytes)
    ensures WithContent(WithContent(p, a), b) == WithContent(p, a + b) && WithContent(p, "") == p
    ensures WithContent(p, a) == p.(req := WithContent(p, a).req)
  {
    assert p.req.content + a + b == p.req.content + (a + b) && p.req.content + "" == p.req.content;
  }

  // ----- trailers -----

  lemma TrailerNameRead(p: Parser, name: string)
    requires p.state.ChunkSizeNewLine_2? && name != "" && IsAlpha(name[0]) && IsWord(name)
    ensures Reaches(p, name + ":", p.(state := ChunkTrailerValue))
  {
    var q := p.(state := ChunkTrailerName);
    assert name == [name[0]] + name[1..];
    Reach(p, name[0]);
    Reach(q, ':');
    Span(q, name[1..]);
    hide Step;
    ReadOn(p, [name[0]], q, name[1..]);
    ReachThen(p, name, q, ":", p.(state := ChunkTrailerValue));
  }

  lemma TrailerValueRead(p: Parser, value: string)
    requires p.state.ChunkTrailerValue? && IsWords(value)
    ensures Reaches(p, value + "\r", p.(state := ChunkSizeNewLine))
  {
    Reach(p, '\r');
    Span(p, value);
    hide Step;
    if value == "" {
      assert value + "\r" == "\r";
    } else {
      ReachThen(p, value, p, "\r", p.(state := ChunkSizeNewLine));
    }
  }

  lemma TrailerRead(p: Parser, t: Trailer)
    requires p.state.ChunkSizeNewLine_2? && p.chunkSizeStr == "" && p.chunkSize == 0 && WellFormedTrailer(t)
    ensures Reaches(p, TrailerText(t), p)
  {
    var r, u := p.(state := ChunkTrailerValue), p.(state := ChunkSizeNewLine);
    TrailerNameRead(p, t.name);
    TrailerValueRead(r, t.value);
    assert Strtol16("") == 0;
    SizeLineEnds(u, "");
    hide Reaches, Strtol16;
    ReachThen(p, t.name + ":", r, t.value + "\r", u);
    ReachThen(p, t.name + ":" + (t.value + "\r"), u, "\n", p);
    assert t.name + ":" + (t.value + "\r") + "\n" == TrailerText(t);
  }

  lemma {:induction false} TrailersRead(p: Parser, trailers: seq<Trailer>)
    requires p.state.ChunkSizeNewLine_2? && p.chunkSizeStr == "" && p.chunkSize == 0
    requires forall i :: 0 <= i < |trailers| ==> WellFormedTrailer(trailers[i])
    ensures Reaches(p, TrailersText(trailers), p)
    decreases |trailers|
  {
    if trailers != [] {
      TrailerRead(p, trailers[0]);
      TrailersRead(p, trailers[1..]);
      ReachThen(p, TrailerText(trailers[0]), p, TrailersText(trailers[1..]), p);
    }
  }

  /** The run completes on the last character of `s`, and leaves `q`. */
  ghost predicate Completes(p: Parser, s: Bytes, q: Parser) {
    Run(p, s) == Outcome(q, ParsingCompleted, |s|)
  }

  lemma CompleteThen(p: Parser, a: Bytes, q: Parser, b: Bytes, r: Parser)
    requires Reaches(p, a, q) && Completes(q, b, r)
    ensures Completes(p, a + b, r)
  {
    RunConcat(p, a, b);
    hide Run;
  }

  /** Decoding inverts encoding: the chunks' data, in order, is what is stored, whatever sizes are written with
      more digits than needed and whatever extensions and trailers come with them; the run completes exactly on
      the last character. */
  lemma ChunkedRead(p: Parser, b: Body)
    requires p.state.ChunkSize? && p.chunkSizeStr == "" && p.chunkSize == 0 && WellFormedBody(b)
    ensures Completes(p, BodyText(b), WithContent(p, DataOf(b.chunks)).(state := ChunkSizeNewLine_3))
  {
    var q := WithContent(p, DataOf(b.chunks));
    var r := q.(state := ChunkSizeNewLine_2);
    ChunksRead(p, b.chunks);
    SizeRead(q, b.size, b.extension);
    TrailersRead(r, b.trailers);
    EndRead(r);
    hide Step, WithContent, WellFormedChunk, WellFormedTrailer;
    var t := ChunksText(b.chunks) + SizeText(b.size, b.extension);
    ReachThen(p, ChunksText(b.chunks), q, SizeText(b.size, b.extension), r);
    ReachThen(p, t, r, TrailersText(b.trailers), r);
    CompleteThen(p, t + TrailersText(b.trailers), r, CRLF, q.(state := ChunkSizeNewLine_3));
  }

  lemma LastOne(p: Parser, c: char)
    requires Step(p, c).result.ParsingCompleted?
    ensures Completes(p, [c], Step(p, c).parser)
  {
    hide Step;
  }

  lemma EndRead(p: Parser)
    requires p.state.ChunkSizeNewLine_2?
    ensures Completes(p, CRLF, p.(state := ChunkSizeNewLine_3))
  {
    var q := p.(state := ChunkSizeNewLine_3);
    Reach(p, '\r');
    LastOne(q, '\n');
    hide Step;
    CompleteThen(p, "\r", q, "\n", q);
  }

  // ----- the usual encoder -----

  function CanonicalChunks(pieces: seq<Bytes>): (r: seq<Chunk>)
    ensures |r| == |pieces|
    ensures forall i :: 0 <= i < |r| ==> r[i] == Chunk(Text(16, |pieces[i]|), NoExtension, pieces[i])
  {
    seq(|pieces|, i requires 0 <= i < |pieces| => Chunk(Text(16, |pieces[i]|), NoExtension, pieces[i]))
  }

  /** Hexadecimal sizes, no extension, no trailer. */
  function Canonical(pieces: seq<Bytes>): Body {
    Body(CanonicalChunks(pieces), "0", NoExtension, [])
  }

  lemma HexIsWord(s: string)
    requires AllDigits(16, s)
    ensures IsWord(s)
  {
    assert forall i :: 0 <= i < |s| ==> IsDigitOf(16, s[i]);
  }

  lemma {:induction false} DataOfCanonical(pieces: seq<Bytes>)
    ensures DataOf(CanonicalChunks(pieces)) == Flatten(pieces)
    decreases |pieces|
  {
    if pieces != [] {
      DataOfCanonical(pieces[1..]);
      assert CanonicalChunks(pieces)[1..] == CanonicalChunks(pieces[1..]);
    }
  }

  lemma CanonicalWellFormed(pieces: seq<Bytes>)
    requires forall i :: 0 <= i < |pieces| ==> pieces[i] != ""
    ensures WellFormedBody(Canonical(pieces))
  {
    forall i | 0 <= i < |pieces|
      ensures WellFormedChunk(CanonicalChunks(pieces)[i])
    {
      ReadBack(|pieces[i]|);
      HexIsWord(Text(16, |pieces[i]|));
    }
    assert Strtol16("0") == 0 by {
      assert "0"[1..] == "";
    }
  }

  /** For every sequence of non-empty chunks. */
  lemma DecodeEncode(p: Parser, pieces: seq<Bytes>)
    requires p.state.ChunkSize? && p.chunkSizeStr == "" && p.chunkSize == 0
    requires forall i :: 0 <= i < |pieces| ==> pieces[i] != ""
    ensures Completes(p, BodyText(Canonical(pieces)), WithContent(p, Flatten(pieces)).(state := ChunkSizeNewLine_3))
  {
    CanonicalWellFormed(pieces);
    DataOfCanonical(pieces);
    hide WellFormedBody, Completes;
    ChunkedRead(p, Canonical(pieces));
  }

  // ----- whole messages -----

  /** The head announces a body of `n` bytes, not in chunks. */
  ghost predicate Announces(h: Head, n: nat) {
    HasBody(h.method_) && Announced(HeadersOf(h.lines)) == n && !HeadSaysChunked(h)
  }

  /** The parser at the end of the head. */
  function AfterHead(h: Head): Parser {
    Run(NEW_PARSER, HeadText(h)).parser
  }

  lemma AfterHeadFramed(h: Head)
    requires WellFormed(h)
    ensures var p := AfterHead(h);
            && Reaches(NEW_PARSER, HeadText(h), p) && Framed(p)
            && p.state.HeaderLineStart? && p.req == RequestOf(h)
            && (p.chunked <==> HeadSaysChunked(h))
  {
    HeadRead(h);
    assert Framed(NEW_PARSER);
    FramedRun(NEW_PARSER, HeadText(h));
  }

  /** How the body is framed is known at the end of the head, exactly. */
  lemma AfterHeadNoted(h: Head)
    requires WellFormed(h)
    ensures var p := AfterHead(h);
            && p.chunkSizeStr == "" && p.chunkSize == 0
            && (p.chunked <==> HeadSaysChunked(h))
            && p.contentSize == if HasBody(h.method_) then Announced(HeadersOf(h.lines)) else 0
  {
    AfterHeadFramed(h);
    assert Ended(AfterHead(h)) == HeadersOf(h.lines);
    hide Announced, SaysChunked, Run, HeadText, Reaches, HeadSaysChunked, WellFormed;
  }

  lemma CutOff(p: Parser, s: Bytes, q: Parser, rest: Bytes)
    requires Completes(p, s, q)
    ensures Run(p, s + rest) == Outcome(q, ParsingCompleted, |s|)
  {
    RunConcat(p, s, rest);
    hide Run;
  }

  /** The empty line that ends a head without a body. */
  lemma EmptyLineEnds(p: Parser)
    requires p.state.HeaderLineStart? && !p.chunked && p.contentSize == 0
    ensures Completes(p, CRLF, p.(state := ExpectingNewline_3, req := WithKeepAlive(p.req)))
  {
    var q := p.(state := ExpectingNewline_3);
    Reach(p, '\r');
    LastOne(q, '\n');
    assert Step(p, '\r').parser == q && Step(q, '\n').parser == q.(req := WithKeepAlive(p.req));
    hide *;
    CompleteThen(p, "\r", q, "\n", q.(req := WithKeepAlive(p.req)));
  }

  /** A request that announces no body completes on the LF of the empty line, whatever follows. */
  lemma RequestWithoutBody(h: Head, rest: Bytes)
    requires WellFormed(h) && (!HasBody(h.method_) || Announces(h, 0))
    ensures var o := Run(NEW_PARSER, HeadText(h) + CRLF + rest);
            && o.result.ParsingCompleted? && o.used == |HeadText(h)| + 2
            && o.parser.req == WithKeepAlive(RequestOf(h))
  {
    hide Framed, HeadText, Reaches, Completes, WellFormed, Announced, HeadersOf, AfterHead;
    AfterHeadFramed(h);
    AfterHeadNoted(h);
    var p := AfterHead(h);
    EmptyLineEnds(p);
    var r := p.(state := ExpectingNewline_3, req := WithKeepAlive(p.req));
    CompleteThen(NEW_PARSER, HeadText(h), p, CRLF, r);
    CutOff(NEW_PARSER, HeadText(h) + CRLF, r, rest);
  }

  /** The empty line that ends a head with a body: the parser does not look at the character after its CR. */
  lemma EmptyLineRead(p: Parser, c: char)
    requires p.state.HeaderLineStart? && (p.chunked || p.contentSize > 0)
    ensures Reaches(p, "\r" + [c], p.(state := if p.chunked then ChunkSize else Post, req := WithKeepAlive(p.req)))
  {
    var q := p.(state := ExpectingNewline_3);
    Reach(p, '\r');
    Reach(q, c);
    hide Step;
    ReachThen(p, "\r", q, [c], p.(state := if p.chunked then ChunkSize else Post, req := WithKeepAlive(p.req)));
  }

  lemma {:induction false} PostRead(p: Parser, body: Bytes)
    requires p.state.Post? && p.contentSize == |body| > 0
    ensures Completes(p, body, WithContent(p, body).(contentSize := 0))
    decreases |body|
  {
    var done := WithContent(p, body).(contentSize := 0);
    if |body| == 1 {
      LastOne(p, body[0]);
      assert body == [body[0]];
    } else {
      var q := WithContent(p, [body[0]]).(contentSize := p.contentSize - 1);
      assert Step(p, body[0]) == On(q);
      Reach(p, body[0]);
      PostRead(q, body[1..]);
      assert body == [body[0]] + body[1..];
      assert p.req.content + [body[0]] + body[1..] == p.req.content + body;
      hide Step;
      CompleteThen(p, [body[0]], q, body[1..], done);
    }
  }

  /** A body of the announced length is stored as it is, and nothing after it is read. */
  lemma RequestWithLength(h: Head, c: char, body: Bytes, rest: Bytes)
    requires WellFormed(h) && body != "" && Announces(h, |body|)
    ensures var o := Run(NEW_PARSER, HeadText(h) + ("\r" + [c]) + body + rest);
            && o.result.ParsingCompleted? && o.used == |HeadText(h)| + 2 + |body|
            && o.parser.req == WithKeepAlive(RequestOf(h)).(content := body)
  {
    AfterHeadFramed(h);
    AfterHeadNoted(h);
    var p := AfterHead(h);
    hide AfterHead, Framed, HeadText, Step;
    var q := p.(state := Post, req := WithKeepAlive(p.req));
    EmptyLineRead(p, c);
    PostRead(q, body);
    var r := WithContent(q, body).(contentSize := 0);
    assert "" + body == body;
    assert r.req == WithKeepAlive(RequestOf(h)).(content := body);
    hide Reaches, Completes, WithContent;
    ReachThen(NEW_PARSER, HeadText(h), p, "\r" + [c], q);
    CompleteThen(NEW_PARSER, HeadText(h) + ("\r" + [c]), q, body, r);
    CutOff(NEW_PARSER, HeadText(h) + ("\r" + [c]) + body, r, rest);
  }

  /** A chunked body is decoded, and nothing after it is read. */
  lemma RequestWithChunks(h: Head, c: char, b: Body, rest: Bytes)
    requires WellFormed(h) && HeadSaysChunked(h) && WellFormedBody(b)
    ensures var o := Run(NEW_PARSER, HeadText(h) + ("\r" + [c]) + BodyText(b) + rest);
            && o.result.ParsingCompleted? && o.used == |HeadText(h)| + 2 + |BodyText(b)|
            && o.parser.req == WithKeepAlive(RequestOf(h)).(content := DataOf(b.chunks))
  {
    AfterHeadFramed(h);
    AfterHeadNoted(h);
    var p := AfterHead(h);
    hide AfterHead, Framed, HeadText, Step, BodyText, WellFormedBody;
    var q := p.(state := ChunkSize, req := WithKeepAlive(p.req));
    EmptyLineRead(p, c);
    ChunkedRead(q, b);
    var r := WithContent(q, DataOf(b.chunks)).(state := ChunkSizeNewLine_3);
    assert "" + DataOf(b.chunks) == DataOf(b.chunks);
    assert r.req == WithKeepAlive(RequestOf(h)).(content := DataOf(b.chunks));
    hide Reaches, Completes, WithContent;
    ReachThen(NEW_PARSER, HeadText(h), p, "\r" + [c], q);
    CompleteThen(NEW_PARSER, HeadText(h) + ("\r" + [c]), q, BodyText(b), r);
    CutOff(NEW_PARSER, HeadText(h) + ("\r" + [c]) + BodyText(b), r, rest);
  }
}
