/** The normalised request as it is built: filled in place from a parsed request, and printed by a loop over
    its headers. */
module HttpRequest {
  import opened Wrappers
  import opened Ascii
  import M = RequestMachine
  import Url = UrlMachine
  import HttpRequestParser
  import UrlParser
  import opened HeaderMap
  import opened RequestText
  import Spec = RequestKey

  /** Failed stands for the exception of an incomplete parse, Aborted for a failed assertion or a call of
      abort. */
  datatype Parsing = Done | Failed | Aborted

  class HttpRequest {
    var versionMajor: nat
    var versionMinor: nat
    var method_: string
    const url: UrlParser.UrlParser
    var headers: seq<M.Header>

    constructor ()
      ensures versionMajor == 1 && versionMinor == 0 && method_ == "" && headers == [] && fresh(url)
    {
      versionMajor, versionMinor, method_, headers := 1, 0, "", [];
      url := new UrlParser.UrlParser();
    }

    function View(): Spec.Shown
      reads this, url
    {
      Spec.Shown(method_, url.url.path, versionMajor, versionMinor, headers)
    }

    method AddHeaders(received: seq<M.Header>)
      modifies this`headers
      ensures headers == AddAll(old(headers), received)
    {
      for i := 0 to |received|
        invariant headers == AddAll(old(headers), received[..i])
      {
        var h := received[i];
        assert received[..i + 1][..i] == received[..i];
        if h.name !in HEADERS_TO_REMOVE {
          if h.name == "Connection" {
            headers := Insert(headers, h.name, "close");
          } else {
            headers := Insert(headers, h.name, h.value);
          }
        }
      }
      assert received[..|received|] == received;
    }

    method ParseRequestStr(text: Bytes) returns (request: HttpRequestParser.Request, completed: bool)
      ensures fresh(request)
      ensures var o := M.Run(M.NEW_PARSER, text);
              request.View() == o.parser.req && completed == o.result.ParsingCompleted?
    {
      request := new HttpRequestParser.Request();
      var parser := new HttpRequestParser.HttpRequestParser();
      var result, used := parser.Consume(request, text);
      assert parser.View(request).req == request.View();
      completed := result == M.ParsingCompleted;
    }

    method Parse(text: Bytes) returns (r: Parsing)
      modifies this, url
      ensures var o := M.Run(M.NEW_PARSER, text);
              var q := o.parser.req;
              && (r == Failed <==> !o.result.ParsingCompleted?)
              && (r == Aborted <==> o.result.ParsingCompleted? && Url.Parse(q.uri).Stopped?)
              && (r == Done ==> Url.Parse(q.uri) == Url.Parsed(url.valid, url.url)
                                && View() == Spec.Shown(q.method_, url.url.path, q.versionMajor, q.versionMinor,
                                                        AddAll(old(headers), q.headers)))
    {
      var request, completed := ParseRequestStr(text);
      if !completed {
        return Failed;
      }
      versionMajor := request.versionMajor;
      versionMinor := request.versionMinor;
      method_ := request.method_;
      var returned := url.Parse(request.uri);
      if !returned {
        return Aborted;
      }
      AddHeaders(request.headers);
      r := Done;
    }

    /** None stands for the failed assertion that the URL is valid. */
    method ToString() returns (s: Option<string>)
      ensures s == if url.valid then Some(Spec.Printed(View())) else None
    {
      if !url.valid {
        return None;
      }
      var stream := method_ + " " + url.url.path + " HTTP/" + Text(10, versionMajor) + "."
                    + Text(10, versionMinor) + CRLF;
      ghost var first := stream;
      var i := 0;
      while i < |headers|
        invariant i <= |headers|
        invariant stream + Spec.HeadersText(headers[i..]) == first + Spec.HeadersText(headers)
      {
        assert headers[i..][0] == headers[i] && headers[i..][1..] == headers[i + 1..];
        ghost var before := stream;
        stream := stream + headers[i].name + ": " + headers[i].value + CRLF;
        assert stream == before + Spec.HeaderText(headers[i]);
        assert before + Spec.HeadersText(headers[i..]) == stream + Spec.HeadersText(headers[i + 1..]);
        i := i + 1;
      }
      assert headers[i..] == [] && stream + "" == stream;
      assert first == Spec.FirstLine(View());
      s := Some(stream + CRLF + CRLF);
    }
  }

  /** What a client does with the text it receives: None if there is no key. */
  method GetHttpRequest(text: Bytes) returns (key: Option<Wrappers.Key>)
    ensures key == Spec.Key(text)
  {
    var request := new HttpRequest();
    var parsing := request.Parse(text);
    if parsing != Done {
      return None;
    }
    key := request.ToString();
  }
}
