/** Exactly which texts the response parser accepts after the status line. */
module ResponseLanguage {
  import opened Wrappers
  import opened ResponseLockStep
  import Ascii
  import M = RequestMachine
  import Properties = RequestProperties
  import Text = RequestText
  import Body = RequestBody
  import Requests = RequestLanguage

  /** What follows a status line: header lines, and a body of no length, of the announced one, or in chunks. The
      character `c` after the last CR of a head with a body may be any. */
  datatype Message =
    | Plain(lines: seq<Text.Line>)
    | OfLength(lines: seq<Text.Line>, c: char, content: Bytes)
    | OfChunks(lines: seq<Text.Line>, c: char, b: Body.Body)

  ghost predicate SayChunked(lines: seq<Text.Line>) {
    exists i :: 0 <= i < |lines| && Text.LineSaysChunked(lines[i])
  }

  ghost predicate Announce(lines: seq<Text.Line>, n: nat) {
    Properties.Announced(Text.HeadersOf(lines)) == n && !SayChunked(lines)
  }

  ghost predicate WellFormedMessage(m: Message) {
    && WellFormedLines(m.lines)
    && match m
       case Plain(lines) => Announce(lines, 0)
       case OfLength(lines, _, content) => content != "" && Announce(lines, |content|)
       case OfChunks(lines, _, b) => SayChunked(lines) && Body.WellFormedBody(b)
  }

  function TailText(m: Message): Bytes {
    match m
    case Plain(_) => Text.CRLF
    case OfLength(_, c, content) => "\r" + [c] + content
    case OfChunks(_, c, b) => "\r" + [c] + Body.BodyText(b)
  }

  function MessageText(m: Message): Bytes {
    Text.LinesText(m.lines) + TailText(m)
  }

  // ----- the request that is read alike -----

  function AsRequest(major: nat, minor: nat, m: Message): Requests.Message {
    var h := Companion(major, minor, m.lines);
    match m
    case Plain(_) => Requests.Plain(h)
    case OfLength(_, c, content) => Requests.OfLength(h, c, content)
    case OfChunks(_, c, b) => Requests.OfChunks(h, c, b)
  }

  function RequestLine(major: nat, minor: nat): Bytes {
    Text.RequestLine(Companion(major, minor, []))
  }

  lemma AsRequestText(major: nat, minor: nat, m: Message)
    ensures Requests.MessageText(AsRequest(major, minor, m)) == RequestLine(major, minor) + MessageText(m)
  {
    hide Text.LinesText, Body.BodyText, TailText, Requests.MessageText, RequestLine, Text.RequestLine;
    var r := AsRequest(major, minor, m);
    TailSplit(r);
    SameTail(major, minor, m);
    SameLine(major, minor, m.lines);
    assert RequestLine(major, minor) + (Text.LinesText(m.lines) + TailText(m))
           == RequestLine(major, minor) + MessageText(m);
  }

  lemma SameLine(major: nat, minor: nat, lines: seq<Text.Line>)
    ensures Text.RequestLine(Companion(major, minor, lines)) == RequestLine(major, minor)
  {
    hide Ascii.Text;
  }

  lemma SameTail(major: nat, minor: nat, m: Message)
    ensures !AsRequest(major, minor, m).Simple? && Tail(AsRequest(major, minor, m)) == TailText(m)
  {
    hide Body.BodyText;
  }

  lemma AsRequestGood(major: nat, minor: nat, m: Message)
    ensures Requests.WellFormedMessage(AsRequest(major, minor, m)) <==> WellFormedMessage(m)
  {
    CompanionGood(major, minor, m.lines);
    hide Text.LineSaysChunked, Properties.Announced, Body.WellFormedBody, Text.WellFormed, WellFormedLines;
    assert Text.HeadSaysChunked(Companion(major, minor, m.lines)) <==> SayChunked(m.lines);
  }

  lemma CompanionGood(major: nat, minor: nat, lines: seq<Text.Line>)
    ensures Text.WellFormed(Companion(major, minor, lines)) <==> WellFormedLines(lines)
  {
    hide Text.WellFormedLine;
    if WellFormedLines(lines) {
      CompanionWellFormed(major, minor, lines);
    }
  }

  // ----- a request that begins with this request line -----

  /** The first `c` divides a text in one way. */
  lemma Apart(a: Bytes, x: Bytes, b: Bytes, y: Bytes, c: char)
    requires a + [c] + x == b + [c] + y && c !in a && c !in b
    ensures a == b && x == y
  {
    assert (a + [c] + x)[|a|] == c && (b + [c] + y)[|b|] == c;
    assert |a| == |b|;
    assert a == (a + [c] + x)[..|a|] && b == (b + [c] + y)[..|b|];
    assert x == (a + [c] + x)[|a| + 1..] && y == (b + [c] + y)[|b| + 1..];
  }

  /** The request line up to its CR. */
  function Line(h: Text.Head): Bytes {
    h.method_ + " " + h.uri + " HTTP/" + h.major + "." + h.minor
  }

  lemma NoReturn(h: Text.Head)
    requires Text.WellFormed(h)
    ensures '\r' !in Line(h) && ' ' !in h.method_
  {
    assert Ascii.IsControl('\r') && !Ascii.IsToken('\r') && !Ascii.IsToken(' ');
    assert forall i :: 0 <= i < |h.major| ==> h.major[i] != '\r';
    assert forall i :: 0 <= i < |h.minor| ==> h.minor[i] != '\r';
  }

  /** The request line is the only one that it could be. */
  lemma SameRequestLine(h: Text.Head, g: Text.Head, x: Bytes, y: Bytes)
    requires Text.WellFormed(h) && Text.WellFormed(g) && Text.RequestLine(h) + x == Text.RequestLine(g) + y
    ensures h.method_ == g.method_ && x == y
  {
    NoReturn(h);
    NoReturn(g);
    LineSplit(h, x);
    LineSplit(g, y);
    hide Text.WellFormed, Text.RequestLine, Line;
    Apart(Line(h), "\n" + x, Line(g), "\n" + y, '\r');
    assert x == ("\n" + x)[1..] && y == ("\n" + y)[1..];
    Apart(h.method_, AfterMethod(h), g.method_, AfterMethod(g), ' ');
  }

  function AfterMethod(h: Text.Head): Bytes {
    h.uri + " HTTP/" + h.major + "." + h.minor
  }

  lemma LineSplit(h: Text.Head, x: Bytes)
    ensures Text.RequestLine(h) + x == Line(h) + ['\r'] + ("\n" + x)
    ensures Line(h) == h.method_ + [' '] + AfterMethod(h)
  {
    assert Text.RequestLine(h) == Line(h) + Text.CRLF;
    var a := Line(h);
    assert a + "\r\n" + x == a + ['\r'] + ("\n" + x);
  }

  lemma NotSimple(name: string, u: string, g: Text.Head, y: Bytes)
    requires Text.IsName(name) && Text.IsTarget(u) && Text.WellFormed(g)
    ensures name + " " + u + "\r" != Text.RequestLine(g) + y
  {
    NoReturn(g);
    LineSplit(g, y);
    assert Ascii.IsControl('\r') && !Ascii.IsToken('\r');
    var a := name + " " + u;
    assert '\r' !in a;
    assert a + "\r" == a + ['\r'] + "";
    hide Text.RequestLine, Line;
    if a + "\r" == Text.RequestLine(g) + y {
      Apart(a, "", Line(g), "\n" + y, '\r');
    }
  }

  /** What follows the head of a request. */
  function Tail(r: Requests.Message): Bytes
    requires !r.Simple?
  {
    match r
    case Plain(_) => Text.CRLF
    case OfLength(_, c, body) => "\r" + [c] + body
    case OfChunks(_, c, b) => "\r" + [c] + Body.BodyText(b)
  }

  lemma TailSplit(r: Requests.Message)
    requires !r.Simple?
    ensures Requests.MessageText(r) == Text.RequestLine(r.h) + (Text.LinesText(r.h.lines) + Tail(r))
  {
    hide Text.RequestLine, Text.LinesText, Body.BodyText;
  }

  function AsResponse(r: Requests.Message): Message
    requires !r.Simple?
  {
    match r
    case Plain(h) => Plain(h.lines)
    case OfLength(h, c, body) => OfLength(h.lines, c, body)
    case OfChunks(h, c, b) => OfChunks(h.lines, c, b)
  }

  lemma AsResponseGood(r: Requests.Message)
    requires Requests.WellFormedMessage(r) && !r.Simple? && r.h.method_ == "POST"
    ensures WellFormedMessage(AsResponse(r))
    ensures MessageText(AsResponse(r)) == Text.LinesText(r.h.lines) + Tail(r)
  {
    hide Text.LineSaysChunked, Properties.Announced, Body.WellFormedBody, Text.WellFormedLine, Text.LinesText,
      Body.BodyText, Text.IsName, Text.IsTarget, Text.IsNumeral;
    assert Text.HeadSaysChunked(r.h) <==> SayChunked(r.h.lines);
  }

  lemma FromRequest(major: nat, minor: nat, r: Requests.Message, t: Bytes) returns (m: Message)
    requires Requests.WellFormedMessage(r) && Requests.MessageText(r) == RequestLine(major, minor) + t
    ensures WellFormedMessage(m) && t == MessageText(m)
  {
    var g := Companion(major, minor, []);
    CompanionWellFormed(major, minor, []);
    hide Text.IsName, Text.IsTarget, Text.RequestLine, Text.LinesText, Tail, WellFormedMessage, MessageText,
      Text.WellFormed;
    if r.Simple? {
      NotSimple(r.m, r.u, g, t);
    } else {
      TailSplit(r);
      SameRequestLine(r.h, g, Text.LinesText(r.h.lines) + Tail(r), t);
      AsResponseGood(r);
      m := AsResponse(r);
    }
  }

  /** After a status line, the response parser completes after `n` characters if and only if these are a message, spelt
      by the grammar. */
  lemma Language(major: nat, minor: nat, s: Bytes, n: nat)
    ensures Run(AfterStatusLine(major, minor), s).result.ParsingCompleted?
            && Run(AfterStatusLine(major, minor), s).used == n
            <==> n <= |s| && exists m :: WellFormedMessage(m) && s[..n] == MessageText(m)
  {
    var start := RequestLine(major, minor);
    ReadAlike(major, minor, s);
    hide Run, M.Run, RequestLine, AfterStatusLine, WellFormedMessage, MessageText, Requests.WellFormedMessage,
      Requests.MessageText;
    Requests.Language(start + s, |start| + n);
    if n <= |s| {
      assert (start + s)[..|start| + n] == start + s[..n];
      if exists r :: Requests.WellFormedMessage(r) && start + s[..n] == Requests.MessageText(r) {
        var r :| Requests.WellFormedMessage(r) && start + s[..n] == Requests.MessageText(r);
        var m := FromRequest(major, minor, r, s[..n]);
      }
      if exists m :: WellFormedMessage(m) && s[..n] == MessageText(m) {
        var m :| WellFormedMessage(m) && s[..n] == MessageText(m);
        AsRequestGood(major, minor, m);
        AsRequestText(major, minor, m);
      }
    }
  }

  lemma ReadAlike(major: nat, minor: nat, s: Bytes)
    ensures var start := RequestLine(major, minor);
            var o, a := M.Run(M.NEW_PARSER, start + s), Run(AfterStatusLine(major, minor), s);
            a.result == o.result && |start| + a.used == o.used
  {
    hide M.Run, Run, Text.RequestLine, AfterStatusLine;
    CompanionRead(major, minor, [], s);
    assert Text.LinesText([]) == "" && "" + s == s;
    var start := RequestLine(major, minor);
    assert start + "" == start;
  }
}
