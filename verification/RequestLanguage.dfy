/** Exactly which texts the request parser accepts: whatever it reads is spelt by the grammar, and the other way
    round. */
module RequestLanguage {
  import opened Wrappers
  import opened Ascii
  import opened RequestMachine
  import opened RequestProperties
  import opened RequestText
  import opened RequestBody

  // ----- longer heads -----

  lemma {:induction false} FoldsAppend(folds: seq<Fold>, f: Fold)
    ensures FoldsText(folds + [f]) == FoldsText(folds) + FoldText(f)
    decreases |folds|
  {
    if folds == [] {
      assert folds + [f] == [f] && [f][1..] == [];
    } else {
      assert (folds + [f])[1..] == folds[1..] + [f];
      hide FoldText;
      FoldsAppend(folds[1..], f);
    }
  }

  lemma {:induction false} LinesAppend(lines: seq<Line>, l: Line)
    ensures LinesText(lines + [l]) == LinesText(lines) + LineText(l)
    decreases |lines|
  {
    if lines == [] {
      assert lines + [l] == [l] && [l][1..] == [];
    } else {
      assert (lines + [l])[1..] == lines[1..] + [l];
      hide LineText;
      LinesAppend(lines[1..], l);
    }
  }

  function WithLine(h: Head, l: Line): Head {
    h.(lines := h.lines + [l])
  }

  /** The last line goes on. */
  function WithFold(h: Head, f: Fold): Head
    requires h.lines != []
  {
    var n := |h.lines| - 1;
    var l := h.lines[n];
    h.(lines := h.lines[..n] + [l.(folds := l.folds + [f])])
  }

  lemma WithLineText(h: Head, l: Line)
    requires WellFormed(h) && WellFormedLine(l)
    ensures WellFormed(WithLine(h, l)) && HeadText(WithLine(h, l)) == HeadText(h) + LineText(l)
  {
    LinesAppend(h.lines, l);
    hide WellFormedLine, LineText, LinesText, RequestLine, IsName, IsTarget, IsNumeral;
    assert RequestLine(WithLine(h, l)) == RequestLine(h) by {
      SameLine(h, WithLine(h, l));
    }
  }

  lemma SameLine(h: Head, g: Head)
    requires g == h.(lines := g.lines)
    ensures RequestLine(g) == RequestLine(h)
  {
  }

  lemma WithFoldText(h: Head, f: Fold)
    requires WellFormed(h) && h.lines != [] && WellFormedFold(f)
    ensures WellFormed(WithFold(h, f)) && HeadText(WithFold(h, f)) == HeadText(h) + FoldText(f)
  {
    var n := |h.lines| - 1;
    var l := h.lines[n];
    var m := l.(folds := l.folds + [f]);
    LineGrows(l, f);
    hide WellFormedLine, LineText, LinesText, RequestLine, FoldText, WellFormedFold, IsName, IsTarget, IsNumeral;
    LinesAppend(h.lines[..n], l);
    LinesAppend(h.lines[..n], m);
    assert h.lines == h.lines[..n] + [l];
    SameLine(h, WithFold(h, f));
  }

  lemma LineGrows(l: Line, f: Fold)
    requires WellFormedLine(l) && WellFormedFold(f)
    ensures var m := l.(folds := l.folds + [f]); WellFormedLine(m) && LineText(m) == LineText(l) + FoldText(f)
  {
    FoldsAppend(l.folds, f);
    hide WellFormedFold, FoldText, FoldsText, IsName, NoControl;
  }

  // ----- what has been read of a message -----

  const PROTOCOL := "HTTP/"

  datatype Reading =
    | InMethod(m: string)
    | InTarget(m: string, u: string)
    | InProtocol(m: string, u: string, n: nat)
    | InMajor(m: string, u: string, a: string)
    | InMinor(m: string, u: string, a: string, b: string)
    | AfterMinor(m: string, u: string, a: string, b: string)
    | AtLines(h: Head)
    | InName(h: Head, name: string)
    | AfterColon(h: Head, name: string)
    | InValue(h: Head, name: string, value: string)
    | InBlanks(h: Head, blanks: string)
    | InFold(h: Head, blanks: string, text: string)
    | AfterLine(h: Head)
    | AfterLines(h: Head)
    | InContent(h: Head, c: char, content: Bytes)

  function TextOf(r: Reading): Bytes {
    match r
    case InMethod(m) => m
    case InTarget(m, u) => m + " " + u
    case InProtocol(m, u, n) => m + " " + u + " " + (if n <= 5 then PROTOCOL[..n] else PROTOCOL)
    case InMajor(m, u, a) => m + " " + u + " HTTP/" + a
    case InMinor(m, u, a, b) => m + " " + u + " HTTP/" + a + "." + b
    case AfterMinor(m, u, a, b) => m + " " + u + " HTTP/" + a + "." + b + "\r"
    case AtLines(h) => HeadText(h)
    case InName(h, name) => HeadText(h) + name
    case AfterColon(h, name) => HeadText(h) + name + ":"
    case InValue(h, name, value) => HeadText(h) + name + ": " + value
    case InBlanks(h, blanks) => HeadText(h) + blanks
    case InFold(h, blanks, text) => HeadText(h) + blanks + text
    case AfterLine(h) => if HeadText(h) == "" then "" else HeadText(h)[..|HeadText(h)| - 1]
    case AfterLines(h) => HeadText(h) + "\r"
    case InContent(h, c, content) => HeadText(h) + ("\r" + [c]) + content
  }

  /** What has been read can become a message. */
  ghost predicate Good(r: Reading) {
    match r
    case InMethod(m) => m == "" || IsName(m)
    case InTarget(m, u) => IsName(m) && (u == "" || IsTarget(u))
    case InProtocol(m, u, n) => IsName(m) && IsTarget(u) && n < 5
    case InMajor(m, u, a) => IsName(m) && IsTarget(u) && (a == "" || IsNumeral(a))
    case InMinor(m, u, a, b) => IsName(m) && IsTarget(u) && IsNumeral(a) && (b == "" || IsNumeral(b))
    case AfterMinor(m, u, a, b) => IsName(m) && IsTarget(u) && IsNumeral(a) && IsNumeral(b)
    case AtLines(h) => WellFormed(h)
    case InName(h, name) => WellFormed(h) && IsName(name)
    case AfterColon(h, name) => WellFormed(h) && IsName(name)
    case InValue(h, name, value) => WellFormed(h) && IsName(name) && NoControl(value)
    case InBlanks(h, blanks) => WellFormed(h) && h.lines != [] && WellFormedFold(Fold(blanks, ""))
    case InFold(h, blanks, text) => WellFormed(h) && h.lines != [] && text != "" && WellFormedFold(Fold(blanks, text))
    case AfterLine(h) => WellFormed(h) && h.lines != [] && EndsLine(HeadText(h))
    case AfterLines(h) => WellFormed(h)
    case InContent(h, _, _) => WellFormed(h)
  }

  predicate EndsLine(s: Bytes) {
    s != "" && s[|s| - 1] == '\n'
  }

  function StateOf(r: Reading): State
    requires !r.InContent?
  {
    match r
    case InMethod(m) => if m == "" then RequestMethodStart else RequestMethod
    case InTarget(_, u) => if u == "" then RequestUriStart else RequestUri
    case InProtocol(_, _, n) =>
      if n == 0 then HttpVersion_h else if n == 1 then HttpVersion_ht else if n == 2 then HttpVersion_htt
      else if n == 3 then HttpVersion_http else HttpVersion_slash
    case InMajor(_, _, a) => if a == "" then HttpVersion_majorStart else HttpVersion_major
    case InMinor(_, _, _, b) => if b == "" then HttpVersion_minorStart else HttpVersion_minor
    case AfterMinor(_, _, _, _) => HttpVersion_newLine
    case AtLines(_) => HeaderLineStart
    case InName(_, _) => HeaderName
    case AfterColon(_, _) => SpaceBeforeHeaderValue
    case InValue(_, _, _) => HeaderValue
    case InBlanks(_, _) => HeaderLws
    case InFold(_, _, _) => HeaderValue
    case AfterLine(_) => ExpectingNewline_2
    case AfterLines(_) => ExpectingNewline_3
  }

  /** No header line has begun. */
  predicate NoHeader(r: Reading) {
    match r
    case AtLines(h) => h.lines == []
    case AfterLines(h) => h.lines == []
    case InContent(h, _, _) => h.lines == []
    case _ => OnLine(r)
  }

  predicate OnLine(r: Reading) {
    r.InMethod? || r.InTarget? || r.InProtocol? || r.InMajor? || r.InMinor? || r.AfterMinor?
  }

  /** The parser is where this reading leaves it. */
  ghost predicate Fits(r: Reading, p: Parser) {
    && Good(r) && (if r.InContent? then InBody(p.state) else p.state == StateOf(r))
    && (p.req.headers == [] <==> NoHeader(r))
  }

  ghost predicate Reads(r: Reading, p: Parser, s: Bytes) {
    Fits(r, p) && TextOf(r) == s
  }

  lemma Longer(a: Bytes, b: Bytes, c: char)
    ensures a + (b + [c]) == a + b + [c]
  {
  }

  lemma NextInMethod(r: Reading, p: Parser, c: char) returns (next: Reading)
    requires Fits(r, p) && (r.InMethod? || r.InTarget?) && Step(p, c).result.ParsingIncompleted?
    ensures Reads(next, Step(p, c).parser, TextOf(r) + [c])
  {
    hide StepVersion, StepHeader, StepEnd, StepPost, StepSize, StepData, StepTrailer, IsToken, IsControl;
    assert Step(p, c) == StepMethod(p, c);
    hide Step;
    match r
    case InMethod(m) =>
      if c == ' ' && m != "" {
        next := InTarget(m, "");
        assert m + " " + "" == m + " ";
      } else {
        next := InMethod(m + [c]);
      }
    case InTarget(m, u) =>
      if u != "" && c == ' ' {
        next := InProtocol(m, u, 0);
        assert m + " " + u + " " + PROTOCOL[..0] == m + " " + u + " ";
      } else {
        next := InTarget(m, u + [c]);
        assert m + " " + (u + [c]) == m + " " + u + [c];
      }
  }

  lemma NextInProtocol(r: Reading, p: Parser, c: char) returns (next: Reading)
    requires Fits(r, p) && r.InProtocol? && Step(p, c).result.ParsingIncompleted?
    ensures Reads(next, Step(p, c).parser, TextOf(r) + [c])
  {
    hide StepMethod, StepHeader, StepEnd, StepPost, StepSize, StepData, StepTrailer, IsName, IsTarget;
    assert Step(p, c) == StepVersion(p, c);
    hide Step;
    var m, u, n := r.m, r.u, r.n;
    assert PROTOCOL[n] == c;
    assert PROTOCOL[..n] + [c] == PROTOCOL[..n + 1];
    assert m + " " + u + " " + PROTOCOL[..n] + [c] == m + " " + u + " " + (PROTOCOL[..n] + [c]);
    if n < 4 {
      next := InProtocol(m, u, n + 1);
    } else {
      next := InMajor(m, u, "");
      assert PROTOCOL[..5] == PROTOCOL && m + " " + u + " " + PROTOCOL == m + " " + u + " HTTP/" + "";
    }
  }

  lemma NextInMajor(r: Reading, p: Parser, c: char) returns (next: Reading)
    requires Fits(r, p) && r.InMajor? && Step(p, c).result.ParsingIncompleted?
    ensures Reads(next, Step(p, c).parser, TextOf(r) + [c])
  {
    hide StepMethod, StepHeader, StepEnd, StepPost, StepSize, StepData, StepTrailer, IsName, IsTarget, DigitOf;
    assert Step(p, c) == StepVersion(p, c);
    hide Step;
    var line := r.m + " " + r.u + " HTTP/";
    if r.a != "" && c == '.' {
      next := InMinor(r.m, r.u, r.a, "");
      assert line + r.a + "." + "" == line + r.a + [c];
    } else {
      next := InMajor(r.m, r.u, r.a + [c]);
      Longer(line, r.a, c);
    }
  }

  lemma NextInMinor(r: Reading, p: Parser, c: char) returns (next: Reading)
    requires Fits(r, p) && r.InMinor? && Step(p, c).result.ParsingIncompleted?
    ensures Reads(next, Step(p, c).parser, TextOf(r) + [c])
  {
    hide StepMethod, StepHeader, StepEnd, StepPost, StepSize, StepData, StepTrailer, IsName, IsTarget, DigitOf;
    assert Step(p, c) == StepVersion(p, c);
    hide Step;
    if r.b != "" && c == '\r' {
      next := AfterMinor(r.m, r.u, r.a, r.b);
    } else {
      next := InMinor(r.m, r.u, r.a, r.b + [c]);
      Longer(r.m + " " + r.u + " HTTP/" + r.a + ".", r.b, c);
    }
  }

  lemma NextAfterMinor(r: Reading, p: Parser, c: char) returns (next: Reading)
    requires Fits(r, p) && r.AfterMinor? && Step(p, c).result.ParsingIncompleted?
    ensures Reads(next, Step(p, c).parser, TextOf(r) + [c])
  {
    hide StepMethod, StepHeader, StepEnd, StepPost, StepSize, StepData, StepTrailer, IsName, IsTarget, IsNumeral;
    assert Step(p, c) == StepVersion(p, c);
    hide Step;
    var line := r.m + " " + r.u + " HTTP/" + r.a + "." + r.b;
    next := AtLines(Head(r.m, r.u, r.a, r.b, []));
    assert line + "\r" + "\n" == line + CRLF;
    assert RequestLine(next.h) + "" == RequestLine(next.h);
  }

  // ----- header lines -----

  /** Which characters the header lines are made of, and the states between them. */
  ghost predicate HeaderChar(p: Parser, c: char, q: Parser) {
    && (q.req.headers == [] <==> p.req.headers == [] && !q.state.HeaderName?)
    && match p.state
       case HeaderLineStart =>
         if c == '\r' then q.state.ExpectingNewline_3?
         else if p.req.headers != [] && IsBlank(c) then q.state.HeaderLws?
         else q.state.HeaderName? && IsToken(c)
       case HeaderLws =>
         if c == '\r' then q.state.ExpectingNewline_2?
         else if IsBlank(c) then q.state.HeaderLws?
         else q.state.HeaderValue? && !IsControl(c)
       case HeaderName => if c == ':' then q.state.SpaceBeforeHeaderValue? else q.state.HeaderName? && IsToken(c)
       case SpaceBeforeHeaderValue => c == ' ' && q.state.HeaderValue?
       case HeaderValue => if c == '\r' then q.state.ExpectingNewline_2? else q.state.HeaderValue? && !IsControl(c)
       case _ => c == '\n' && q.state.HeaderLineStart?
  }

  lemma HeaderChars(p: Parser, c: char)
    requires ReadsHeader(p.state) && Step(p, c).result.ParsingIncompleted?
    ensures HeaderChar(p, c, Step(p, c).parser)
  {
    hide StepMethod, StepVersion, StepEnd, StepPost, StepSize, StepData, StepTrailer, IsToken, IsControl, IsBlank,
      EqualNoCase, Atoi;
    assert Step(p, c) == StepHeader(p, c);
    hide Step;
  }

  lemma NextAtLines(r: Reading, p: Parser, c: char) returns (next: Reading)
    requires Fits(r, p) && r.AtLines? && Step(p, c).result.ParsingIncompleted?
    ensures Reads(next, Step(p, c).parser, TextOf(r) + [c])
  {
    hide Step, IsToken, IsBlank, HeadText, WellFormed;
    HeaderChars(p, c);
    next := if c == '\r' then AfterLines(r.h)
            else if p.req.headers != [] && IsBlank(c) then InBlanks(r.h, [c])
            else InName(r.h, [c]);
  }

  lemma NextInName(r: Reading, p: Parser, c: char) returns (next: Reading)
    requires Fits(r, p) && (r.InName? || r.AfterColon?) && Step(p, c).result.ParsingIncompleted?
    ensures Reads(next, Step(p, c).parser, TextOf(r) + [c])
  {
    hide Step, IsToken, HeadText, WellFormed;
    HeaderChars(p, c);
    match r
    case InName(h, name) =>
      next := if c == ':' then AfterColon(h, name) else InName(h, name + [c]);
      Longer(HeadText(h), name, c);
    case AfterColon(h, name) =>
      next := InValue(h, name, "");
      assert HeadText(h) + name + ": " + "" == HeadText(h) + name + ":" + " ";
  }

  lemma WithoutLast(s: Bytes, t: Bytes)
    ensures (s + t + CRLF)[..|s + t + CRLF| - 1] == s + t + "\r" && EndsLine(s + t + CRLF)
  {
  }

  lemma ValueEnds(h: Head, name: string, value: string)
    requires WellFormed(h) && IsName(name) && NoControl(value)
    ensures var r := AfterLine(WithLine(h, Line(name, value, [])));
            Good(r) && TextOf(r) == HeadText(h) + name + ": " + value + "\r"
  {
    var l := Line(name, value, []);
    WithLineText(h, l);
    hide HeadText, WellFormed;
    assert HeadText(h) + LineText(l) == HeadText(h) + (name + ": " + value) + CRLF;
    WithoutLast(HeadText(h), name + ": " + value);
    assert HeadText(h) + (name + ": " + value) == HeadText(h) + name + ": " + value;
  }

  lemma NextInValue(r: Reading, p: Parser, c: char) returns (next: Reading)
    requires Fits(r, p) && r.InValue? && Step(p, c).result.ParsingIncompleted?
    ensures Reads(next, Step(p, c).parser, TextOf(r) + [c])
  {
    hide Step, IsControl, HeadText, WellFormed, IsName;
    HeaderChars(p, c);
    var h, name, value := r.h, r.name, r.value;
    if c == '\r' {
      next := AfterLine(WithLine(h, Line(name, value, [])));
      ValueEnds(h, name, value);
    } else {
      next := InValue(h, name, value + [c]);
      Longer(HeadText(h) + name + ": ", value, c);
    }
  }

  lemma FoldEnds(h: Head, f: Fold)
    requires WellFormed(h) && h.lines != [] && WellFormedFold(f)
    ensures Good(AfterLine(WithFold(h, f)))
    ensures TextOf(AfterLine(WithFold(h, f))) == HeadText(h) + f.blanks + f.text + "\r"
  {
    WithFoldText(h, f);
    hide HeadText, WellFormed;
    assert HeadText(h) + FoldText(f) == HeadText(h) + (f.blanks + f.text) + CRLF;
    WithoutLast(HeadText(h), f.blanks + f.text);
    assert HeadText(h) + (f.blanks + f.text) == HeadText(h) + f.blanks + f.text;
  }

  lemma BlanksGrow(blanks: string, c: char)
    requires WellFormedFold(Fold(blanks, "")) && (IsBlank(c) || !IsControl(c))
    ensures WellFormedFold(if IsBlank(c) then Fold(blanks + [c], "") else Fold(blanks, [c]))
  {
    hide IsBlank, IsControl;
  }

  lemma TextGrows(blanks: string, text: string, c: char)
    requires WellFormedFold(Fold(blanks, text)) && text != "" && !IsControl(c)
    ensures WellFormedFold(Fold(blanks, text + [c]))
  {
    hide IsBlank, IsControl;
  }

  lemma NextInBlanks(r: Reading, p: Parser, c: char) returns (next: Reading)
    requires Fits(r, p) && r.InBlanks? && Step(p, c).result.ParsingIncompleted?
    ensures Reads(next, Step(p, c).parser, TextOf(r) + [c])
  {
    hide Step, IsControl, IsBlank, HeadText, WellFormed, WellFormedFold;
    HeaderChars(p, c);
    var h, blanks := r.h, r.blanks;
    if c == '\r' {
      next := AfterLine(WithFold(h, Fold(blanks, "")));
      FoldEnds(h, Fold(blanks, ""));
      assert HeadText(h) + blanks + "" == HeadText(h) + blanks;
    } else {
      next := if IsBlank(c) then InBlanks(h, blanks + [c]) else InFold(h, blanks, [c]);
      BlanksGrow(blanks, c);
      Longer(HeadText(h), blanks, c);
    }
  }

  lemma NextInFold(r: Reading, p: Parser, c: char) returns (next: Reading)
    requires Fits(r, p) && r.InFold? && Step(p, c).result.ParsingIncompleted?
    ensures Reads(next, Step(p, c).parser, TextOf(r) + [c])
  {
    hide Step, IsControl, IsBlank, HeadText, WellFormed, WellFormedFold;
    HeaderChars(p, c);
    var h, blanks, text := r.h, r.blanks, r.text;
    if c == '\r' {
      next := AfterLine(WithFold(h, Fold(blanks, text)));
      FoldEnds(h, Fold(blanks, text));
    } else {
      next := InFold(h, blanks, text + [c]);
      TextGrows(blanks, text, c);
      Longer(HeadText(h) + blanks, text, c);
    }
  }

  // ----- the end of a line, and of the head -----

  lemma NextAfterLine(r: Reading, p: Parser, c: char) returns (next: Reading)
    requires Fits(r, p) && (r.AfterLine? || r.AfterLines?) && Step(p, c).result.ParsingIncompleted?
    ensures Reads(next, Step(p, c).parser, TextOf(r) + [c])
  {
    hide StepMethod, StepVersion, StepSize, StepData, StepTrailer, StepPost, HeadText, WellFormed;
    match r
    case AfterLine(h) =>
      next := AtLines(h);
      var t := HeadText(h);
      assert t[..|t| - 1] + [c] == t;
    case AfterLines(h) =>
      next := InContent(h, c, "");
      assert HeadText(h) + ("\r" + [c]) + "" == HeadText(h) + "\r" + [c];
  }

  lemma StaysInBody(p: Parser, c: char)
    requires InBody(p.state)
    ensures InBody(Step(p, c).parser.state) && Step(p, c).parser.req.headers == p.req.headers
  {
    hide StepMethod, StepVersion, StepHeader, StepEnd, IsAlnum, IsAlpha, Strtol16;
  }

  lemma NextInContent(r: Reading, p: Parser, c: char) returns (next: Reading)
    requires Fits(r, p) && r.InContent?
    ensures Reads(next, Step(p, c).parser, TextOf(r) + [c])
  {
    StaysInBody(p, c);
    hide Step, HeadText, WellFormed, InBody;
    next := InContent(r.h, r.c, r.content + [c]);
    var s := HeadText(r.h) + ("\r" + [r.c]);
    assert s + (r.content + [c]) == s + r.content + [c];
  }

  /** One more character. */
  lemma Next(r: Reading, p: Parser, c: char) returns (next: Reading)
    requires Fits(r, p) && Step(p, c).result.ParsingIncompleted?
    ensures Reads(next, Step(p, c).parser, TextOf(r) + [c])
  {
    hide Fits, Reads, TextOf, Step;
    if r.InMethod? || r.InTarget? {
      next := NextInMethod(r, p, c);
    } else if r.InProtocol? {
      next := NextInProtocol(r, p, c);
    } else if r.InMajor? {
      next := NextInMajor(r, p, c);
    } else if r.InMinor? {
      next := NextInMinor(r, p, c);
    } else if r.AfterMinor? {
      next := NextAfterMinor(r, p, c);
    } else if r.AtLines? {
      next := NextAtLines(r, p, c);
    } else if r.InName? || r.AfterColon? {
      next := NextInName(r, p, c);
    } else if r.InValue? {
      next := NextInValue(r, p, c);
    } else if r.InBlanks? {
      next := NextInBlanks(r, p, c);
    } else if r.InFold? {
      next := NextInFold(r, p, c);
    } else if r.AfterLine? || r.AfterLines? {
      next := NextAfterLine(r, p, c);
    } else {
      next := NextInContent(r, p, c);
    }
  }

  lemma OneMore(p: Parser, a: Bytes, c: char)
    ensures Run(p, a + [c]).result.ParsingIncompleted? ==> Run(p, a).result.ParsingIncompleted?
    ensures var o := Run(p, a);
            o.result.ParsingIncompleted? ==>
              var t := Step(o.parser, c);
              Run(p, a + [c]) == Outcome(t.parser, t.result, |a| + 1)
  {
    RunConcat(p, a, [c]);
    hide Step;
    assert [c][1..] == "";
  }

  /** Whatever has been read without an error is the beginning of a message. */
  lemma {:induction false} ReadingOf(s: Bytes) returns (r: Reading)
    requires Run(NEW_PARSER, s).result.ParsingIncompleted?
    ensures Reads(r, Run(NEW_PARSER, s).parser, s)
    decreases |s|
  {
    if s == "" {
      r := InMethod("");
    } else {
      var a, c := s[..|s| - 1], s[|s| - 1];
      assert s == a + [c];
      OneMore(NEW_PARSER, a, c);
      hide Run, Step, Fits, TextOf;
      var before := ReadingOf(a);
      r := Next(before, Run(NEW_PARSER, a).parser, c);
    }
  }

  /** The parser is at the start of a line exactly after a well-formed head. */
  lemma HeadLanguage(s: Bytes)
    ensures (Run(NEW_PARSER, s).result.ParsingIncompleted? && Run(NEW_PARSER, s).parser.state.HeaderLineStart?)
            <==> exists h :: WellFormed(h) && s == HeadText(h)
  {
    hide Run, WellFormed, HeadText;
    var o := Run(NEW_PARSER, s);
    if o.result.ParsingIncompleted? && o.parser.state.HeaderLineStart? {
      var r := ReadingOf(s);
      assert WellFormed(r.h) && s == HeadText(r.h);
    }
    if exists h :: WellFormed(h) && s == HeadText(h) {
      var h :| WellFormed(h) && s == HeadText(h);
      HeadRead(h);
    }
  }

  // ----- what has been read of a chunked body -----

  datatype Coding =
    | InSize(chunks: seq<Chunk>, size: string)
    | InExtension(chunks: seq<Chunk>, size: string, e: Extension)
    | AfterSize(chunks: seq<Chunk>, size: string, e: Extension)
    | InData(chunks: seq<Chunk>, size: string, e: Extension, data: Bytes)
    | AfterData(chunks: seq<Chunk>, chunk: Chunk)
    | AfterDataCr(chunks: seq<Chunk>, chunk: Chunk)
    | AtTrailers(b: Body)
    | InTrailerName(b: Body, name: string)
    | InTrailerValue(b: Body, t: Trailer)
    | AfterTrailer(b: Body, t: Trailer)
    | AfterTrailers(b: Body)

  /** The body up to the empty line that ends it. */
  function BodyStart(b: Body): Bytes {
    ChunksText(b.chunks) + SizeText(b.size, b.extension) + TrailersText(b.trailers)
  }

  function CodingText(r: Coding): Bytes {
    match r
    case InSize(chunks, size) => ChunksText(chunks) + size
    case InExtension(chunks, size, e) => ChunksText(chunks) + (size + ExtensionText(e))
    case AfterSize(chunks, size, e) => ChunksText(chunks) + (size + ExtensionText(e)) + "\r"
    case InData(chunks, size, e, data) => ChunksText(chunks) + SizeText(size, e) + data
    case AfterData(chunks, d) => ChunksText(chunks) + SizeText(d.size, d.extension) + d.data
    case AfterDataCr(chunks, d) => ChunksText(chunks) + SizeText(d.size, d.extension) + d.data + "\r"
    case AtTrailers(b) => BodyStart(b)
    case InTrailerName(b, name) => BodyStart(b) + name
    case InTrailerValue(b, t) => BodyStart(b) + (t.name + ":" + t.value)
    case AfterTrailer(b, t) => BodyStart(b) + (t.name + ":" + t.value) + "\r"
    case AfterTrailers(b) => BodyStart(b) + "\r"
  }

  ghost predicate WellFormedChunks(chunks: seq<Chunk>) {
    forall i :: 0 <= i < |chunks| ==> WellFormedChunk(chunks[i])
  }

  /** The parser is where this reading leaves it. */
  ghost predicate Decodes(r: Coding, p: Parser) {
    match r
    case InSize(chunks, size) =>
      p.state.ChunkSize? && p.chunkSizeStr == size && WellFormedChunks(chunks) && IsWord(size)
    case InExtension(chunks, size, e) =>
      && p.state == (if e.Valued? then ChunkExtensionValue else ChunkExtensionName) && p.chunkSizeStr == size
      && WellFormedChunks(chunks) && IsWord(size) && WellFormedExtension(e) && !e.NoExtension?
    case AfterSize(chunks, size, e) =>
      && p.state.ChunkSizeNewLine? && p.chunkSizeStr == size
      && WellFormedChunks(chunks) && IsWord(size) && WellFormedExtension(e)
    case InData(chunks, size, e, data) =>
      && p.state.ChunkData? && p.chunkSizeStr == "" && p.chunkSize > 0 && Strtol16(size) == |data| + p.chunkSize
      && WellFormedChunks(chunks) && IsWord(size) && WellFormedExtension(e)
    case AfterData(chunks, d) =>
      p.state.ChunkDataNewLine_1? && p.chunkSizeStr == "" && WellFormedChunks(chunks) && WellFormedChunk(d)
    case AfterDataCr(chunks, d) =>
      p.state.ChunkDataNewLine_2? && p.chunkSizeStr == "" && WellFormedChunks(chunks) && WellFormedChunk(d)
    case AtTrailers(b) => p.state.ChunkSizeNewLine_2? && p.chunkSizeStr == "" && WellFormedBody(b)
    case InTrailerName(b, name) =>
      p.state.ChunkTrailerName? && p.chunkSizeStr == "" && WellFormedBody(b) && WellFormedTrailer(Trailer(name, ""))
    case InTrailerValue(b, t) =>
      p.state.ChunkTrailerValue? && p.chunkSizeStr == "" && WellFormedBody(b) && WellFormedTrailer(t)
    case AfterTrailer(b, t) =>
      p.state.ChunkSizeNewLine? && p.chunkSizeStr == "" && WellFormedBody(b) && WellFormedTrailer(t)
    case AfterTrailers(b) => p.state.ChunkSizeNewLine_3? && WellFormedBody(b)
  }

  ghost predicate ReadsCoding(r: Coding, p: Parser, s: Bytes) {
    Decodes(r, p) && CodingText(r) == s
  }

  lemma {:induction false} ChunksAppend(chunks: seq<Chunk>, d: Chunk)
    ensures ChunksText(chunks + [d]) == ChunksText(chunks) + ChunkText(d)
    decreases |chunks|
  {
    if chunks == [] {
      assert chunks + [d] == [d] && [d][1..] == [];
    } else {
      assert (chunks + [d])[1..] == chunks[1..] + [d];
      hide ChunkText;
      ChunksAppend(chunks[1..], d);
    }
  }

  lemma {:induction false} TrailersAppend(trailers: seq<Trailer>, t: Trailer)
    ensures TrailersText(trailers + [t]) == TrailersText(trailers) + TrailerText(t)
    decreases |trailers|
  {
    if trailers == [] {
      assert trailers + [t] == [t] && [t][1..] == [];
    } else {
      assert (trailers + [t])[1..] == trailers[1..] + [t];
      hide TrailerText;
      TrailersAppend(trailers[1..], t);
    }
  }

  lemma NextInSize(r: Coding, p: Parser, c: char) returns (next: Coding)
    requires Decodes(r, p) && r.InSize? && Step(p, c).result.ParsingIncompleted?
    ensures ReadsCoding(next, Step(p, c).parser, CodingText(r) + [c])
  {
    hide StepMethod, StepVersion, StepHeader, StepEnd, StepPost, StepData, StepTrailer, IsAlnum, WellFormedChunks,
      ChunksText;
    assert Step(p, c) == StepSize(p, c);
    hide Step;
    var head := ChunksText(r.chunks);
    if IsAlnum(c) {
      next := InSize(r.chunks, r.size + [c]);
      Longer(head, r.size, c);
    } else if c == ';' {
      next := InExtension(r.chunks, r.size, Named(""));
      assert head + (r.size + (";" + "")) == head + r.size + ";";
    } else {
      next := AfterSize(r.chunks, r.size, NoExtension);
      assert head + (r.size + "") + "\r" == head + r.size + "\r";
    }
  }

  lemma ExtensionGrows(e: Extension, c: char) returns (f: Extension)
    requires WellFormedExtension(e) && !e.NoExtension? && (IsAlnum(c) || c == ' ')
    ensures WellFormedExtension(f) && f.Named? == e.Named? && f.Valued? == e.Valued?
    ensures ExtensionText(f) == ExtensionText(e) + [c]
  {
    hide IsAlnum;
    match e
    case Named(name) =>
      f := Named(name + [c]);
      Longer(";", name, c);
    case Valued(name, value) =>
      f := Valued(name, value + [c]);
      Longer(";" + name + "=", value, c);
    case NoExtension =>
  }

  lemma NextInExtension(r: Coding, p: Parser, c: char) returns (next: Coding)
    requires Decodes(r, p) && r.InExtension? && Step(p, c).result.ParsingIncompleted?
    ensures ReadsCoding(next, Step(p, c).parser, CodingText(r) + [c])
  {
    hide StepMethod, StepVersion, StepHeader, StepEnd, StepPost, StepData, StepTrailer, IsAlnum, WellFormedChunks,
      ChunksText, IsWord;
    assert Step(p, c) == StepSize(p, c);
    hide Step;
    var head := ChunksText(r.chunks);
    if IsAlnum(c) || c == ' ' {
      var f := ExtensionGrows(r.e, c);
      next := InExtension(r.chunks, r.size, f);
      hide WellFormedExtension, ExtensionText;
      Longer(r.size, ExtensionText(r.e), c);
      Longer(head, r.size + ExtensionText(r.e), c);
    } else if c == '\r' {
      next := AfterSize(r.chunks, r.size, r.e);
    } else {
      next := InExtension(r.chunks, r.size, Valued(r.e.name, ""));
      var t := ";" + r.e.name;
      assert t + "=" + "" == t + "=";
      Longer(r.size, t, '=');
      Longer(head, r.size + t, '=');
    }
  }

  lemma SizeLine(head: Bytes, size: string, e: Extension)
    ensures head + (size + ExtensionText(e)) + "\r" + "\n" == head + SizeText(size, e)
  {
    hide ExtensionText;
  }

  lemma NextAfterSize(r: Coding, p: Parser, c: char) returns (next: Coding)
    requires Decodes(r, p) && r.AfterSize? && Step(p, c).result.ParsingIncompleted?
    ensures ReadsCoding(next, Step(p, c).parser, CodingText(r) + [c])
  {
    hide StepMethod, StepVersion, StepHeader, StepEnd, StepPost, StepData, StepTrailer, ChunksText, IsWord,
      WellFormedExtension, WellFormedChunk, Strtol16;
    assert Step(p, c) == StepSize(p, c);
    hide Step;
    SizeLine(ChunksText(r.chunks), r.size, r.e);
    var t := ChunksText(r.chunks) + SizeText(r.size, r.e);
    assert t + "" == t;
    next := if Strtol16(r.size) == 0 then AtTrailers(Body(r.chunks, r.size, r.e, []))
            else InData(r.chunks, r.size, r.e, "");
  }

  lemma NextInData(r: Coding, p: Parser, c: char) returns (next: Coding)
    requires Decodes(r, p) && r.InData? && Step(p, c).result.ParsingIncompleted?
    ensures ReadsCoding(next, Step(p, c).parser, CodingText(r) + [c])
  {
    hide StepMethod, StepVersion, StepHeader, StepEnd, StepPost, StepSize, StepTrailer, ChunksText, IsWord, SizeText,
      WellFormedExtension, WellFormedChunks, Strtol16;
    assert Step(p, c) == StepData(p, c);
    hide Step;
    var data := r.data + [c];
    Longer(ChunksText(r.chunks) + SizeText(r.size, r.e), r.data, c);
    next := if p.chunkSize == 1 then AfterData(r.chunks, Chunk(r.size, r.e, data))
            else InData(r.chunks, r.size, r.e, data);
  }

  lemma NextAfterData(r: Coding, p: Parser, c: char) returns (next: Coding)
    requires Decodes(r, p) && (r.AfterData? || r.AfterDataCr?) && Step(p, c).result.ParsingIncompleted?
    ensures ReadsCoding(next, Step(p, c).parser, CodingText(r) + [c])
  {
    hide StepMethod, StepVersion, StepHeader, StepEnd, StepPost, StepSize, StepTrailer, ChunksText, SizeText,
      WellFormedChunk;
    assert Step(p, c) == StepData(p, c);
    hide Step;
    var d := r.chunk;
    if r.AfterData? {
      next := AfterDataCr(r.chunks, d);
    } else {
      next := InSize(r.chunks + [d], "");
      ChunksAppend(r.chunks, d);
      ChunkLine(ChunksText(r.chunks), d);
    }
  }

  lemma ChunkLine(head: Bytes, d: Chunk)
    ensures head + SizeText(d.size, d.extension) + d.data + "\r" + "\n" == head + ChunkText(d) + ""
  {
    hide SizeText;
  }

  lemma NextAtTrailers(r: Coding, p: Parser, c: char) returns (next: Coding)
    requires Decodes(r, p) && r.AtTrailers? && Step(p, c).result.ParsingIncompleted?
    ensures ReadsCoding(next, Step(p, c).parser, CodingText(r) + [c])
  {
    hide StepMethod, StepVersion, StepHeader, StepEnd, StepPost, StepSize, StepData, BodyStart, WellFormedBody;
    assert Step(p, c) == StepTrailer(p, c);
    hide Step;
    next := if c == '\r' then AfterTrailers(r.b) else InTrailerName(r.b, [c]);
  }

  lemma NextInTrailerName(r: Coding, p: Parser, c: char) returns (next: Coding)
    requires Decodes(r, p) && r.InTrailerName? && Step(p, c).result.ParsingIncompleted?
    ensures ReadsCoding(next, Step(p, c).parser, CodingText(r) + [c])
  {
    hide StepMethod, StepVersion, StepHeader, StepEnd, StepPost, StepSize, StepData, BodyStart, WellFormedBody;
    assert Step(p, c) == StepTrailer(p, c);
    hide Step, IsAlpha, IsAlnum;
    var head := BodyStart(r.b);
    if c == ':' {
      next := InTrailerValue(r.b, Trailer(r.name, ""));
      assert head + (r.name + ":" + "") == head + r.name + ":";
    } else {
      next := InTrailerName(r.b, r.name + [c]);
      Longer(head, r.name, c);
    }
  }

  lemma NextInTrailerValue(r: Coding, p: Parser, c: char) returns (next: Coding)
    requires Decodes(r, p) && r.InTrailerValue? && Step(p, c).result.ParsingIncompleted?
    ensures ReadsCoding(next, Step(p, c).parser, CodingText(r) + [c])
  {
    hide StepMethod, StepVersion, StepHeader, StepEnd, StepPost, StepSize, StepData, BodyStart, WellFormedBody;
    assert Step(p, c) == StepTrailer(p, c);
    hide Step, IsAlpha, IsAlnum, IsWord;
    var t := r.t;
    if c == '\r' {
      next := AfterTrailer(r.b, t);
    } else {
      next := InTrailerValue(r.b, t.(value := t.value + [c]));
      Longer(t.name + ":", t.value, c);
      Longer(BodyStart(r.b), t.name + ":" + t.value, c);
    }
  }

  lemma TrailerLine(b: Body, t: Trailer)
    ensures BodyStart(b) + (t.name + ":" + t.value) + "\r" + "\n" == BodyStart(b.(trailers := b.trailers + [t]))
  {
    TrailersAppend(b.trailers, t);
    hide ChunksText, SizeText, TrailersText;
    var head := ChunksText(b.chunks) + SizeText(b.size, b.extension);
    assert head + TrailersText(b.trailers) + (t.name + ":" + t.value) + "\r" + "\n"
           == head + (TrailersText(b.trailers) + TrailerText(t));
  }

  lemma NextAfterTrailer(r: Coding, p: Parser, c: char) returns (next: Coding)
    requires Decodes(r, p) && r.AfterTrailer? && Step(p, c).result.ParsingIncompleted?
    ensures ReadsCoding(next, Step(p, c).parser, CodingText(r) + [c])
  {
    hide StepMethod, StepVersion, StepHeader, StepEnd, StepPost, StepTrailer, StepData, BodyStart, WellFormedChunk,
      WellFormedTrailer, IsWord, WellFormedExtension;
    assert Step(p, c) == StepSize(p, c) && Strtol16("") == 0;
    hide Step, Strtol16;
    next := AtTrailers(r.b.(trailers := r.b.trailers + [r.t]));
    TrailerLine(r.b, r.t);
  }

  lemma NextCoding(r: Coding, p: Parser, c: char) returns (next: Coding)
    requires Decodes(r, p) && Step(p, c).result.ParsingIncompleted?
    ensures ReadsCoding(next, Step(p, c).parser, CodingText(r) + [c])
  {
    if r.AfterTrailers? {
      hide StepMethod, StepVersion, StepHeader, StepEnd, StepPost, StepSize, StepData, WellFormedBody;
      assert false;
    }
    hide Decodes, ReadsCoding, CodingText, Step;
    if r.InSize? {
      next := NextInSize(r, p, c);
    } else if r.InExtension? {
      next := NextInExtension(r, p, c);
    } else if r.AfterSize? {
      next := NextAfterSize(r, p, c);
    } else if r.InData? {
      next := NextInData(r, p, c);
    } else if r.AfterData? || r.AfterDataCr? {
      next := NextAfterData(r, p, c);
    } else if r.AtTrailers? {
      next := NextAtTrailers(r, p, c);
    } else if r.InTrailerName? {
      next := NextInTrailerName(r, p, c);
    } else if r.InTrailerValue? {
      next := NextInTrailerValue(r, p, c);
    } else {
      next := NextAfterTrailer(r, p, c);
    }
  }

  lemma {:induction false} CodingOf(p: Parser, s: Bytes) returns (r: Coding)
    requires p.state.ChunkSize? && p.chunkSizeStr == "" && Run(p, s).result.ParsingIncompleted?
    ensures ReadsCoding(r, Run(p, s).parser, s)
    decreases |s|
  {
    if s == "" {
      r := InSize([], "");
    } else {
      var a, c := s[..|s| - 1], s[|s| - 1];
      assert s == a + [c];
      OneMore(p, a, c);
      hide Run, Step, Decodes, CodingText;
      var before := CodingOf(p, a);
      r := NextCoding(before, Run(p, a).parser, c);
    }
  }

  /** The parser has read this text to its last character, and is done. */
  ghost predicate Accepts(p: Parser, s: Bytes) {
    Run(p, s).result.ParsingCompleted? && Run(p, s).used == |s|
  }

  /** All but the last character leave the parser waiting, and the last one completes the message. */
  lemma LastCharacter(p: Parser, s: Bytes)
    requires Accepts(p, s)
    ensures s != "" && Run(p, s[..|s| - 1]).result.ParsingIncompleted?
    ensures Step(Run(p, s[..|s| - 1]).parser, s[|s| - 1]).result.ParsingCompleted?
  {
    LastStep(p, s);
  }

  lemma CodingEnds(r: Coding, p: Parser, c: char)
    requires Decodes(r, p) && Step(p, c).result.ParsingCompleted?
    ensures r.AfterTrailers? && c == '\n' && CodingText(r) + [c] == BodyText(r.b)
  {
    CompletesIn(p, c);
    hide StepMethod, StepVersion, StepHeader, StepEnd, StepPost, StepSize, StepData, WellFormedBody, WellFormedChunk,
      WellFormedTrailer, ChunksText, SizeText, TrailersText;
    assert BodyStart(r.b) + "\r" + "\n" == BodyStart(r.b) + CRLF;
  }

  /** A body is accepted as chunked exactly if it is spelt by the grammar of the chunked coding. */
  lemma BodyLanguage(p: Parser, s: Bytes)
    requires p.state.ChunkSize? && p.chunkSizeStr == "" && p.chunkSize == 0
    ensures Accepts(p, s) <==> exists b :: WellFormedBody(b) && s == BodyText(b)
  {
    hide Run, WellFormedBody, BodyText, Step, Decodes, CodingText;
    if Accepts(p, s) {
      LastCharacter(p, s);
      var a, c := s[..|s| - 1], s[|s| - 1];
      var r := CodingOf(p, a);
      CodingEnds(r, Run(p, a).parser, c);
      CodingGood(r, Run(p, a).parser);
      assert s == a + [c] && WellFormedBody(r.b) && s == BodyText(r.b);
    }
    if exists b :: WellFormedBody(b) && s == BodyText(b) {
      var b :| WellFormedBody(b) && s == BodyText(b);
      ChunkedRead(p, b);
    }
  }

  lemma CodingGood(r: Coding, p: Parser)
    requires Decodes(r, p) && r.AfterTrailers?
    ensures WellFormedBody(r.b)
  {
  }

  // ----- whole messages -----

  /** A request of HTTP/0.9, one without a body, one with a body of known length, and one in chunks. The character `c`
      after the last CR of a head with a body may be any. */
  datatype Message =
    | Simple(m: string, u: string)
    | Plain(h: Head)
    | OfLength(h: Head, c: char, body: Bytes)
    | OfChunks(h: Head, c: char, b: Body)

  ghost predicate WellFormedMessage(m: Message) {
    match m
    case Simple(name, u) => IsName(name) && IsTarget(u)
    case Plain(h) => WellFormed(h) && (!HasBody(h.method_) || Announces(h, 0))
    case OfLength(h, _, body) => WellFormed(h) && body != "" && Announces(h, |body|)
    case OfChunks(h, _, b) => WellFormed(h) && HeadSaysChunked(h) && WellFormedBody(b)
  }

  function MessageText(m: Message): Bytes {
    match m
    case Simple(name, u) => name + " " + u + "\r"
    case Plain(h) => HeadText(h) + CRLF
    case OfLength(h, c, body) => HeadText(h) + ("\r" + [c]) + body
    case OfChunks(h, c, b) => HeadText(h) + ("\r" + [c]) + BodyText(b)
  }

  /** A request of HTTP/0.9 ends with the CR after its target, and has no headers. */
  lemma SimpleRead(m: string, u: string)
    requires IsName(m) && IsTarget(u)
    ensures Accepts(NEW_PARSER, m + " " + u + "\r")
    ensures Run(NEW_PARSER, m + " " + u + "\r").parser.req == Request(m, u, 0, 9, [], "", false)
  {
    var p, q := AtLine(RequestUriStart, m, "", 0, 0), AtLine(RequestUri, m, u[..1], 0, 0);
    var r := AtLine(RequestUri, m, u, 0, 0);
    MethodRead(m);
    assert u[..1] == [u[0]] && u == u[..1] + u[1..];
    Reach(p, u[0]);
    assert Absorbed(q, u[1..]) == r;
    Span(q, u[1..]);
    LastOne(r, '\r');
    assert Step(r, '\r').parser.req == Request(m, u, 0, 9, [], "", false);
    hide Step, Absorbed;
    if u[1..] == "" {
      assert u == [u[0]];
    } else {
      ReachThen(p, u[..1], q, u[1..], r);
    }
    ReachThen(NEW_PARSER, m + " ", p, u, r);
    CompleteThen(NEW_PARSER, m + " " + u, r, "\r", Step(r, '\r').parser);
  }

  lemma MessageRead(m: Message)
    requires WellFormedMessage(m)
    ensures Accepts(NEW_PARSER, MessageText(m))
  {
    hide Run, WellFormed, HeadText, BodyText, WellFormedBody, Announces, HeadSaysChunked, IsName, IsTarget;
    assert MessageText(m) + "" == MessageText(m);
    match m
    case Simple(name, u) => SimpleRead(name, u);
    case Plain(h) => RequestWithoutBody(h, "");
    case OfLength(h, c, body) => RequestWithLength(h, c, body, "");
    case OfChunks(h, c, b) => RequestWithChunks(h, c, b, "");
  }

  lemma {:induction false} PostLanguage(p: Parser, s: Bytes)
    requires p.state.Post? && p.contentSize > 0
    ensures Accepts(p, s) <==> |s| == p.contentSize
    decreases |s|
  {
    if s != "" {
      assert Step(p, s[0]) == StepPost(p, s[0]);
      hide Step;
      if p.contentSize > 1 {
        PostLanguage(Step(p, s[0]).parser, s[1..]);
      }
    }
  }

  /** The first part of an accepted text that the parser survives is followed by what it accepts then. */
  lemma AcceptsRest(p: Parser, a: Bytes, b: Bytes)
    requires Run(p, a).result.ParsingIncompleted?
    ensures Accepts(p, a + b) <==> Accepts(Run(p, a).parser, b)
  {
    RunConcat(p, a, b);
    hide Run;
  }

  /** The parser after the CR of the empty line that ends a head. */
  lemma AfterEmptyLine(h: Head)
    requires WellFormed(h)
    ensures Run(NEW_PARSER, HeadText(h) + "\r")
            == Outcome(AfterHead(h).(state := ExpectingNewline_3), ParsingIncompleted, |HeadText(h)| + 1)
  {
    AfterHeadFramed(h);
    var p := AfterHead(h);
    Reach(p, '\r');
    assert Step(p, '\r').parser == p.(state := ExpectingNewline_3);
    hide AfterHead, HeadText, Framed, Step;
    ReachThen(NEW_PARSER, HeadText(h), p, "\r", p.(state := ExpectingNewline_3));
  }

  /** A body follows a head exactly if the head announces one. */
  lemma ContentStarts(h: Head, c: char)
    requires WellFormed(h)
    ensures var p, o := AfterHead(h), Run(NEW_PARSER, HeadText(h) + ("\r" + [c]));
            && (o.result.ParsingIncompleted? <==> p.chunked || p.contentSize > 0)
            && (o.result.ParsingIncompleted? ==>
                  o.parser == p.(state := if p.chunked then ChunkSize else Post, req := WithKeepAlive(p.req)))
  {
    AfterEmptyLine(h);
    var p := AfterHead(h);
    var q := p.(state := ExpectingNewline_3);
    assert Step(q, c) == StepEnd(q, c);
    hide AfterHead, HeadText, WellFormed, Step;
    OneMore(NEW_PARSER, HeadText(h) + "\r", c);
    assert HeadText(h) + "\r" + [c] == HeadText(h) + ("\r" + [c]);
    hide Run;
  }

  lemma PlainEnds(h: Head, c: char)
    requires WellFormed(h)
    ensures Step(AfterHead(h).(state := ExpectingNewline_3), c).result.ParsingCompleted? ==>
              c == '\n' && WellFormedMessage(Plain(h))
  {
    AfterHeadNoted(h);
    var q := AfterHead(h).(state := ExpectingNewline_3);
    assert Step(q, c) == StepEnd(q, c);
    hide AfterHead, HeadText, WellFormed, Step, WithKeepAlive, Announced;
  }

  /** What an accepted text with a body consists of. */
  lemma ContentOf(h: Head, c: char, rest: Bytes) returns (m: Message)
    requires WellFormed(h) && Run(NEW_PARSER, HeadText(h) + ("\r" + [c])).result.ParsingIncompleted?
    requires Accepts(NEW_PARSER, HeadText(h) + ("\r" + [c]) + rest)
    ensures WellFormedMessage(m) && MessageText(m) == HeadText(h) + ("\r" + [c]) + rest
  {
    hide Run, WellFormed, HeadText, WellFormedBody, BodyText, Announced, AfterHead, WithKeepAlive, HeadSaysChunked;
    ContentStarts(h, c);
    AfterHeadNoted(h);
    AcceptsRest(NEW_PARSER, HeadText(h) + ("\r" + [c]), rest);
    var q := Run(NEW_PARSER, HeadText(h) + ("\r" + [c])).parser;
    if q.state.ChunkSize? {
      BodyLanguage(q, rest);
      var b :| WellFormedBody(b) && rest == BodyText(b);
      m := OfChunks(h, c, b);
    } else {
      PostLanguage(q, rest);
      m := OfLength(h, c, rest);
    }
  }

  /** What has been read when the last character comes. */
  lemma BeforeLast(r: Reading, p: Parser)
    requires Fits(r, p)
    ensures p.state.RequestUri? ==> r.InTarget? && IsName(r.m) && IsTarget(r.u)
    ensures p.state.ExpectingNewline_3? ==> r.AfterLines? && WellFormed(r.h)
    ensures p.state.Post? || p.state.ChunkSizeNewLine_3? ==> r.InContent? && WellFormed(r.h)
  {
    hide WellFormed, IsName, IsTarget, HeadText, IsNumeral, NoControl, WellFormedFold;
  }

  lemma PlainOf(a: Bytes, c: char, h: Head)
    requires WellFormed(h) && a == HeadText(h) + "\r" && Run(NEW_PARSER, a).result.ParsingIncompleted?
    requires Step(Run(NEW_PARSER, a).parser, c).result.ParsingCompleted?
    ensures WellFormedMessage(Plain(h)) && a + [c] == MessageText(Plain(h))
  {
    hide Run, Step, WellFormed, HeadText, AfterHead;
    AfterEmptyLine(h);
    PlainEnds(h, c);
    assert HeadText(h) + "\r" + "\n" == HeadText(h) + CRLF;
  }

  lemma FromContent(a: Bytes, c: char, h: Head, d: char, content: Bytes) returns (m: Message)
    requires WellFormed(h) && a == HeadText(h) + ("\r" + [d]) + content
    requires Run(NEW_PARSER, a).result.ParsingIncompleted? && Accepts(NEW_PARSER, a + [c])
    ensures WellFormedMessage(m) && a + [c] == MessageText(m)
  {
    hide Run, WellFormed, HeadText, WellFormedMessage, MessageText, Accepts;
    var start := HeadText(h) + ("\r" + [d]);
    RunConcat(NEW_PARSER, start, content);
    Longer(start, content, c);
    m := ContentOf(h, d, content + [c]);
  }

  /** Every accepted text is a message. */
  lemma MessageOf(s: Bytes) returns (m: Message)
    requires Accepts(NEW_PARSER, s)
    ensures WellFormedMessage(m) && s == MessageText(m)
  {
    hide Run, Step, WellFormed, HeadText, Accepts, Fits, Announces, HeadSaysChunked, WellFormedBody, BodyText, IsName,
      IsTarget;
    LastCharacter(NEW_PARSER, s);
    var a, c := s[..|s| - 1], s[|s| - 1];
    assert s == a + [c];
    var p := Run(NEW_PARSER, a).parser;
    CompletesIn(p, c);
    var r := ReadingOf(a);
    BeforeLast(r, p);
    if p.state.RequestUri? {
      m := Simple(r.m, r.u);
      SimpleEnds(p, c);
    } else if p.state.ExpectingNewline_3? {
      m := Plain(r.h);
      PlainOf(a, c, r.h);
    } else {
      m := FromContent(a, c, r.h, r.c, r.content);
    }
  }

  lemma SimpleEnds(p: Parser, c: char)
    requires p.state.RequestUri? && Step(p, c).result.ParsingCompleted?
    ensures c == '\r'
  {
  }

  lemma AcceptedPrefix(p: Parser, s: Bytes, n: nat)
    requires n <= |s|
    ensures Run(p, s).result.ParsingCompleted? && Run(p, s).used == n <==> Accepts(p, s[..n])
  {
    RunConcat(p, s[..n], s[n..]);
    assert s == s[..n] + s[n..];
    var o := Run(p, s[..n]);
    if o.result.ParsingIncompleted? && Run(o.parser, s[n..]).result.ParsingCompleted? {
      LastStep(o.parser, s[n..]);
    }
    hide Run;
  }

  /** The parser completes after `n` characters if and only if these are a message, spelt by the grammar: it accepts
      every message and nothing else, and no message begins with another one. */
  lemma Language(s: Bytes, n: nat)
    ensures Run(NEW_PARSER, s).result.ParsingCompleted? && Run(NEW_PARSER, s).used == n
            <==> n <= |s| && exists m :: WellFormedMessage(m) && s[..n] == MessageText(m)
  {
    hide Run, WellFormedMessage, MessageText, Accepts;
    if n <= |s| {
      AcceptedPrefix(NEW_PARSER, s, n);
      if Accepts(NEW_PARSER, s[..n]) {
        var m := MessageOf(s[..n]);
      }
      if exists m :: WellFormedMessage(m) && s[..n] == MessageText(m) {
        var m :| WellFormedMessage(m) && s[..n] == MessageText(m);
        MessageRead(m);
      }
    }
  }
}
