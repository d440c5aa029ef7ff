/** The request parser as it is built: an object that reads characters in a loop, updates its own fields and
    fills the request in place. */
module HttpRequestParser {
  import opened Wrappers
  import opened Ascii
  import M = RequestMachine
  import Properties = RequestProperties

  class Request {
    var method_: string
    var uri: string
    var versionMajor: nat
    var versionMinor: nat
    var headers: seq<M.Header>
    var content: Bytes
    var keepAlive: bool

    constructor ()
      ensures View() == M.EMPTY_REQUEST
    {
      method_, uri, versionMajor, versionMinor, headers, content, keepAlive := "", "", 0, 0, [], "", false;
    }

    function View(): M.Request
      reads this
    {
      M.Request(method_, uri, versionMajor, versionMinor, headers, content, keepAlive)
    }
  }

  class HttpRequestParser {
    var state: M.State
    var contentSize: nat
    var chunkSizeStr: string
    var chunkSize: nat
    var chunked: bool

    constructor ()
      ensures forall req: Request :: req.View() == M.EMPTY_REQUEST ==> View(req) == M.NEW_PARSER
    {
      state, contentSize, chunkSizeStr, chunkSize, chunked := M.RequestMethodStart, 0, "", 0, false;
    }

    function View(req: Request): M.Parser
      reads this, req
    {
      M.Parser(state, contentSize, chunkSizeStr, chunkSize, chunked, req.View())
    }

    method ConsumeMethod(req: Request, input: char) returns (result: M.ParseResult)
      requires M.ReadsMethod(state)
      modifies this`state, req`method_, req`uri, req`versionMajor, req`versionMinor
      ensures M.Stepped(View(req), result) == M.StepMethod(old(View(req)), input)
    {
      result := M.ParsingIncompleted;
      match state {
        case RequestMethodStart =>
          if !IsChar(input) || IsControl(input) || IsSpecial(input) {
            return M.ParsingError;
          }
          state := M.RequestMethod;
          req.method_ := req.method_ + [input];
        case RequestMethod =>
          if input == ' ' {
            state := M.RequestUriStart;
          } else if !IsChar(input) || IsControl(input) || IsSpecial(input) {
            return M.ParsingError;
          } else {
            req.method_ := req.method_ + [input];
          }
        case RequestUriStart =>
          if IsControl(input) {
            return M.ParsingError;
          }
          state := M.RequestUri;
          req.uri := req.uri + [input];
        case RequestUri =>
          if input == ' ' {
            state := M.HttpVersion_h;
          } else if input == '\r' {
            req.versionMajor := 0;
            req.versionMinor := 9;
            return M.ParsingCompleted;
          } else if IsControl(input) {
            return M.ParsingError;
          } else {
            req.uri := req.uri + [input];
          }
      }
    }

    /** Moves on if the input is the expected character. */
    method Expect(expected: char, next: M.State, input: char) returns (result: M.ParseResult)
      modifies this`state
      ensures result == if input == expected then M.ParsingIncompleted else M.ParsingError
      ensures state == if input == expected then next else old(state)
    {
      if input != expected {
        return M.ParsingError;
      }
      state := next;
      result := M.ParsingIncompleted;
    }

    method ConsumeVersionName(req: Request, input: char) returns (result: M.ParseResult)
      requires state.HttpVersion_h? || state.HttpVersion_ht? || state.HttpVersion_htt? || state.HttpVersion_http?
               || state.HttpVersion_slash? || state.HttpVersion_newLine?
      modifies this`state, req`versionMajor, req`versionMinor
      ensures M.Stepped(View(req), result) == M.StepVersion(old(View(req)), input)
    {
      match state {
        case HttpVersion_h => result := Expect('H', M.HttpVersion_ht, input);
        case HttpVersion_ht => result := Expect('T', M.HttpVersion_htt, input);
        case HttpVersion_htt => result := Expect('T', M.HttpVersion_http, input);
        case HttpVersion_http => result := Expect('P', M.HttpVersion_slash, input);
        case HttpVersion_slash =>
          result := Expect('/', M.HttpVersion_majorStart, input);
          if result == M.ParsingIncompleted {
            req.versionMajor := 0;
            req.versionMinor := 0;
          }
        case HttpVersion_newLine => result := Expect('\n', M.HeaderLineStart, input);
      }
    }

    method ConsumeVersion(req: Request, input: char) returns (result: M.ParseResult)
      requires M.ReadsVersion(state)
      modifies this`state, req`versionMajor, req`versionMinor
      ensures M.Stepped(View(req), result) == M.StepVersion(old(View(req)), input)
    {
      result := M.ParsingIncompleted;
      if state.HttpVersion_majorStart? {
        if !IsDigit(input) {
          return M.ParsingError;
        }
        req.versionMajor := DigitValue(input);
        state := M.HttpVersion_major;
      } else if state.HttpVersion_major? {
        if input == '.' {
          state := M.HttpVersion_minorStart;
        } else if IsDigit(input) {
          req.versionMajor := req.versionMajor * 10 + DigitValue(input);
        } else {
          return M.ParsingError;
        }
      } else if state.HttpVersion_minorStart? {
        if !IsDigit(input) {
          return M.ParsingError;
        }
        req.versionMinor := DigitValue(input);
        state := M.HttpVersion_minor;
      } else if state.HttpVersion_minor? {
        if input == '\r' {
          state := M.HttpVersion_newLine;
        } else if IsDigit(input) {
          req.versionMinor := req.versionMinor * 10 + DigitValue(input);
        } else {
          return M.ParsingError;
        }
      } else {
        result := ConsumeVersionName(req, input);
      }
    }

    method AppendToName(req: Request, input: char)
      requires req.headers != []
      modifies req`headers
      ensures View(req) == M.ToName(old(View(req)), input)
    {
      var n := |req.headers| - 1;
      req.headers := req.headers[n := req.headers[n].(name := req.headers[n].name + [input])];
    }

    method AppendToValue(req: Request, input: char)
      requires req.headers != []
      modifies req`headers
      ensures View(req) == M.ToValue(old(View(req)), input)
    {
      var n := |req.headers| - 1;
      req.headers := req.headers[n := req.headers[n].(value := req.headers[n].value + [input])];
    }

    /** The end of a header line. */
    method NoteFraming(req: Request)
      requires req.headers != []
      modifies this`contentSize, this`chunked
      ensures View(req) == M.Noted(old(View(req)))
    {
      if req.method_ == "POST" || req.method_ == "PUT" {
        var h := req.headers[|req.headers| - 1];
        if EqualNoCase(h.name, "Content-Length") {
          contentSize := ToSize(Atoi(h.value));
        } else if EqualNoCase(h.name, "Transfer-Encoding") {
          if EqualNoCase(h.value, "chunked") {
            chunked := true;
          }
        }
      }
    }

    method ConsumeHeaderStart(req: Request, input: char) returns (result: M.ParseResult)
      requires state.HeaderLineStart? || state.HeaderLws?
      modifies this`state, req`headers
      ensures M.Stepped(View(req), result) == M.StepHeader(old(View(req)), input)
    {
      result := M.ParsingIncompleted;
      if state == M.HeaderLineStart {
        if input == '\r' {
          state := M.ExpectingNewline_3;
        } else if req.headers != [] && (input == ' ' || input == '\t') {
          state := M.HeaderLws;
        } else if !IsChar(input) || IsControl(input) || IsSpecial(input) {
          return M.ParsingError;
        } else {
          req.headers := req.headers + [M.Header([input], "")];
          state := M.HeaderName;
        }
      } else {
        if input == '\r' {
          state := M.ExpectingNewline_2;
        } else if input == ' ' || input == '\t' {
        } else if IsControl(input) || req.headers == [] {
          return M.ParsingError;
        } else {
          state := M.HeaderValue;
          AppendToValue(req, input);
        }
      }
    }

    method ConsumeHeader(req: Request, input: char) returns (result: M.ParseResult)
      requires M.ReadsHeader(state)
      modifies this`state, this`contentSize, this`chunked, req`headers
      ensures M.Stepped(View(req), result) == M.StepHeader(old(View(req)), input)
    {
      hide M.Noted, M.ToName, M.ToValue;
      result := M.ParsingIncompleted;
      if state.HeaderName? {
        if input == ':' {
          state := M.SpaceBeforeHeaderValue;
        } else if !IsChar(input) || IsControl(input) || IsSpecial(input) || req.headers == [] {
          return M.ParsingError;
        } else {
          AppendToName(req, input);
        }
      } else if state.SpaceBeforeHeaderValue? {
        result := Expect(' ', M.HeaderValue, input);
      } else if state.HeaderValue? {
        result := ConsumeValue(req, input);
      } else if state.ExpectingNewline_2? {
        result := Expect('\n', M.HeaderLineStart, input);
      } else {
        result := ConsumeHeaderStart(req, input);
      }
    }

    method ConsumeValue(req: Request, input: char) returns (result: M.ParseResult)
      requires state.HeaderValue?
      modifies this`state, this`contentSize, this`chunked, req`headers
      ensures M.Stepped(View(req), result) == M.StepHeader(old(View(req)), input)
    {
      hide M.Noted, M.ToValue;
      result := M.ParsingIncompleted;
      if req.headers == [] {
        return M.ParsingError;
      } else if input == '\r' {
        NoteFraming(req);
        state := M.ExpectingNewline_2;
      } else if IsControl(input) {
        return M.ParsingError;
      } else {
        AppendToValue(req, input);
      }
    }

    /** The first header named Connection, as std::find_if looks for it. */
    method FindConnection(headers: seq<M.Header>) returns (i: nat)
      ensures i <= |headers|
      ensures M.FirstConnection(headers) == if i == |headers| then -1 else i
    {
      i := 0;
      while i < |headers| && !EqualNoCase(headers[i].name, "Connection")
        invariant i <= |headers|
        invariant forall j :: 0 <= j < i ==> !M.IsConnection(headers[j])
      {
        i := i + 1;
      }
    }

    method ConsumeEnd(req: Request, input: char) returns (result: M.ParseResult)
      requires state.ExpectingNewline_3?
      modifies this`state, req`keepAlive
      ensures M.Stepped(View(req), result) == M.StepEnd(old(View(req)), input)
    {
      var it := FindConnection(req.headers);
      if it != |req.headers| {
        req.keepAlive := EqualNoCase(req.headers[it].value, "Keep-Alive");
      } else if req.versionMajor > 1 || (req.versionMajor == 1 && req.versionMinor == 1) {
        req.keepAlive := true;
      }
      result := M.ParsingIncompleted;
      if chunked {
        state := M.ChunkSize;
      } else if contentSize == 0 {
        return if input == '\n' then M.ParsingCompleted else M.ParsingError;
      } else {
        state := M.Post;
      }
    }

    method ConsumePost(req: Request, input: char) returns (result: M.ParseResult)
      requires state.Post?
      modifies this`contentSize, req`content
      ensures M.Stepped(View(req), result) == M.StepPost(old(View(req)), input)
    {
      contentSize := Decremented(contentSize);
      req.content := req.content + [input];
      result := if contentSize == 0 then M.ParsingCompleted else M.ParsingIncompleted;
    }

    method ConsumeSize(req: Request, input: char) returns (result: M.ParseResult)
      requires M.ReadsSize(state)
      modifies this`state, this`chunkSizeStr, this`chunkSize
      ensures M.Stepped(View(req), result) == M.StepSize(old(View(req)), input)
    {
      hide IsAlnum, Strtol16, Request.View;
      result := M.ParsingIncompleted;
      match state {
        case ChunkSize =>
          if IsAlnum(input) {
            chunkSizeStr := chunkSizeStr + [input];
          } else if input == ';' {
            state := M.ChunkExtensionName;
          } else {
            result := Expect('\r', M.ChunkSizeNewLine, input);
          }
        case ChunkExtensionName =>
          if IsAlnum(input) || input == ' ' {
          } else if input == '=' {
            state := M.ChunkExtensionValue;
          } else {
            result := Expect('\r', M.ChunkSizeNewLine, input);
          }
        case ChunkExtensionValue =>
          if !(IsAlnum(input) || input == ' ') {
            result := Expect('\r', M.ChunkSizeNewLine, input);
          }
        case ChunkSizeNewLine =>
          if input != '\n' {
            return M.ParsingError;
          }
          chunkSize := Strtol16(chunkSizeStr);
          chunkSizeStr := "";
          state := if chunkSize == 0 then M.ChunkSizeNewLine_2 else M.ChunkData;
      }
    }

    method ConsumeData(req: Request, input: char) returns (result: M.ParseResult)
      requires M.ReadsData(state)
      modifies this`state, this`chunkSize, req`content
      ensures M.Stepped(View(req), result) == M.StepData(old(View(req)), input)
    {
      result := M.ParsingIncompleted;
      match state {
        case ChunkData =>
          req.content := req.content + [input];
          chunkSize := Decremented(chunkSize);
          if chunkSize == 0 {
            state := M.ChunkDataNewLine_1;
          }
        case ChunkDataNewLine_1 => result := Expect('\r', M.ChunkDataNewLine_2, input);
        case ChunkDataNewLine_2 => result := Expect('\n', M.ChunkSize, input);
      }
    }

    method ConsumeTrailer(req: Request, input: char) returns (result: M.ParseResult)
      requires Properties.ReadsTrailer(state)
      modifies this`state
      ensures M.Stepped(View(req), result) == M.StepTrailer(old(View(req)), input)
    {
      hide IsAlnum, IsAlpha, Request.View;
      result := M.ParsingIncompleted;
      match state {
        case ChunkSizeNewLine_2 =>
          if input == '\r' {
            state := M.ChunkSizeNewLine_3;
          } else if IsAlpha(input) {
            state := M.ChunkTrailerName;
          } else {
            return M.ParsingError;
          }
        case ChunkSizeNewLine_3 => return if input == '\n' then M.ParsingCompleted else M.ParsingError;
        case ChunkTrailerName =>
          if !IsAlnum(input) {
            result := Expect(':', M.ChunkTrailerValue, input);
          }
        case ChunkTrailerValue =>
          if !(IsAlnum(input) || input == ' ') {
            result := Expect('\r', M.ChunkSizeNewLine, input);
          }
      }
    }

    /** The body of the loop. */
    method ConsumeOne(req: Request, input: char) returns (result: M.ParseResult)
      modifies this, req
      ensures M.Stepped(View(req), result) == M.Step(old(View(req)), input)
    {
      hide M.StepMethod, M.StepVersion, M.StepHeader, M.StepEnd, M.StepPost, M.StepSize, M.StepData, M.StepTrailer;
      if M.ReadsMethod(state) {
        result := ConsumeMethod(req, input);
      } else if M.ReadsVersion(state) {
        result := ConsumeVersion(req, input);
      } else if M.ReadsHeader(state) {
        result := ConsumeHeader(req, input);
      } else if state == M.ExpectingNewline_3 {
        result := ConsumeEnd(req, input);
      } else if state == M.Post {
        result := ConsumePost(req, input);
      } else if M.ReadsSize(state) {
        result := ConsumeSize(req, input);
      } else if M.ReadsData(state) {
        result := ConsumeData(req, input);
      } else {
        result := ConsumeTrailer(req, input);
      }
    }

    /** Reads the input up to the character that completes or fails the request, or to its end. */
    method Consume(req: Request, str: Bytes) returns (result: M.ParseResult, used: nat)
      modifies this, req
      ensures M.Outcome(View(req), result, used) == M.Run(old(View(req)), str)
    {
      used := 0;
      while used < |str|
        invariant used <= |str|
        invariant var o := M.Run(View(req), str[used..]);
                  M.Run(old(View(req)), str) == o.(used := used + o.used)
      {
        ghost var rest := str[used..];
        assert rest[0] == str[used] && rest[1..] == str[used + 1..];
        result := ConsumeOne(req, str[used]);
        used := used + 1;
        if result != M.ParsingIncompleted {
          return;
        }
      }
      result := M.ParsingIncompleted;
    }
  }
}
