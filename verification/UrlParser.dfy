/** The URL parser as it is built: an object whose fields a loop over the characters fills in place, with
    three local variables. */
module UrlParser {
  import opened Ascii
  import M = UrlMachine

  class UrlParser {
    var valid: bool
    var url: M.Url

    constructor ()
      ensures !valid && url == M.NO_URL
    {
      valid, url := false, M.NO_URL;
    }

    function View(state: M.State, usernameOrHostname: string, portOrPassword: string): M.Parser
      reads this
    {
      M.Parser(state, if valid then M.Going else M.Invalid, url, usernameOrHostname, portOrPassword)
    }

    method Fail()
      modifies this
      ensures !valid && url == M.NO_URL
    {
      valid := false;
      url := M.NO_URL;
    }

    method ParseScheme(state: M.State, name: string, ch: char) returns (next: M.State, name': string)
      requires valid && M.ReadsScheme(state)
      modifies this
      ensures forall port :: View(next, name', port) == M.StepScheme(old(View(state, name, port)), ch)
    {
      next, name' := state, name;
      match state {
        case Scheme =>
          if IsAlnum(ch) || ch == '+' || ch == '-' || ch == '.' {
            url := url.(scheme := url.scheme + [ch]);
          } else if ch == ':' {
            next := M.SlashAfterScheme1;
          } else {
            Fail();
          }
        case SlashAfterScheme1 =>
          if ch == '/' {
            next := M.SlashAfterScheme2;
          } else if IsAlnum(ch) {
            name' := [ch];
            next := M.UsernameOrHostname;
          } else {
            Fail();
          }
        case SlashAfterScheme2 =>
          if ch == '/' {
            next := M.UsernameOrHostname;
          } else {
            Fail();
          }
      }
    }

    method ParseAuthority(state: M.State, name: string, ch: char) returns (next: M.State, name': string)
      requires valid && M.ReadsAuthority(state) && !state.IPV6Hostname?
      modifies this
      ensures forall port :: View(next, name', port) == M.StepAuthority(old(View(state, name, port)), ch)
    {
      next, name' := state, name;
      match state {
        case UsernameOrHostname =>
          if M.IsUnreserved(ch) || ch == '%' {
            name' := name + [ch];
          } else if ch == ':' {
            next := M.PortOrPassword;
          } else if ch == '@' {
            next := M.Hostname;
            name', url := url.username, url.(username := name);
          } else if ch == '/' {
            next := M.Path;
            name', url := url.hostname, url.(hostname := name);
          } else {
            Fail();
          }
        case Password =>
          if IsAlnum(ch) || ch == '%' {
            url := url.(password := url.password + [ch]);
          } else if ch == '@' {
            next := M.Hostname;
          } else {
            Fail();
          }
        case Hostname =>
          if ch == '[' && url.hostname == "" {
            next := M.IPV6Hostname;
          } else if M.IsUnreserved(ch) || ch == '%' {
            url := url.(hostname := url.hostname + [ch]);
          } else if ch == ':' {
            next := M.Port;
          } else if ch == '/' {
            next := M.Path;
          } else {
            Fail();
          }
      }
    }

    method ParsePort(state: M.State, name: string, port: string, ch: char)
      returns (next: M.State, name': string, port': string)
      requires valid && M.ReadsPort(state)
      modifies this
      ensures View(next, name', port') == M.StepPort(old(View(state, name, port)), ch)
    {
      next, name', port' := state, name, port;
      match state {
        case PortOrPassword =>
          if IsDigit(ch) {
            port' := port + [ch];
          } else if ch == '/' {
            name', url := url.hostname, url.(hostname := name);
            port', url := url.port, url.(port := port);
            url := url.(integerPort := M.ToPort(Atoi(url.port)));
            next := M.Path;
          } else if IsAlnum(ch) || ch == '%' {
            name', url := url.username, url.(username := name);
            port', url := url.password, url.(password := port);
            url := url.(password := url.password + [ch]);
            next := M.Password;
          } else {
            Fail();
          }
        case Port =>
          if IsDigit(ch) {
            port' := port + [ch];
          } else if ch == '/' {
            port', url := url.port, url.(port := port);
            url := url.(integerPort := M.ToPort(Atoi(url.port)));
            next := M.Path;
          } else {
            Fail();
          }
      }
    }

    method ParsePath(state: M.State, ch: char) returns (next: M.State)
      requires valid && (state.Path? || state.Query? || state.Fragment?)
      modifies this
      ensures forall name, port :: View(next, name, port) == M.StepPath(old(View(state, name, port)), ch)
    {
      next := state;
      match state {
        case Path =>
          if ch == '#' {
            next := M.Fragment;
          } else if ch == '?' {
            next := M.Query;
          } else {
            url := url.(path := url.path + [ch]);
          }
        case Query =>
          if ch == '#' {
            next := M.Fragment;
          } else if ch != '?' {
            url := url.(query := url.query + [ch]);
          }
        case Fragment => url := url.(fragment := url.fragment + [ch]);
      }
    }

    /** One round of the loop, unless it aborts. */
    method ParseOne(state: M.State, name: string, port: string, ch: char)
      returns (next: M.State, name': string, port': string)
      requires valid && !state.IPV6Hostname?
      modifies this
      ensures View(next, name', port') == M.Step(old(View(state, name, port)), ch)
    {
      next, name', port' := state, name, port;
      hide M.StepScheme, M.StepAuthority, M.StepPort, M.StepPath;
      if M.ReadsScheme(state) {
        next, name' := ParseScheme(state, name, ch);
      } else if M.ReadsAuthority(state) {
        next, name' := ParseAuthority(state, name, ch);
      } else if M.ReadsPort(state) {
        next, name', port' := ParsePort(state, name, port, ch);
      } else {
        next := ParsePath(state, ch);
      }
    }

    /** False stands for a failed assertion or a call of abort. */
    method Parse(str: string) returns (returned: bool)
      modifies this
      ensures returned == M.Parse(str).Parsed?
      ensures returned ==> M.Parse(str) == M.Parsed(valid, url)
    {
      var state, usernameOrHostname, portOrPassword := M.Scheme, "", "";
      valid := true;
      url := M.NO_URL.(path := "/");
      var i := 0;
      while i < |str| && valid
        invariant i <= |str|
        invariant M.Run(M.START, str) == M.Run(View(state, usernameOrHostname, portOrPassword), str[i..])
      {
        ghost var rest := str[i..];
        assert rest[0] == str[i] && rest[1..] == str[i + 1..];
        if state.IPV6Hostname? {
          return false;
        }
        state, usernameOrHostname, portOrPassword := ParseOne(state, usernameOrHostname, portOrPassword, str[i]);
        i := i + 1;
      }
      if portOrPassword != "" {
        return false;
      }
      if usernameOrHostname != "" {
        url := url.(hostname := usernameOrHostname);
      }
      returned := true;
    }

    method HttpPort() returns (port: nat)
      requires valid
      ensures port == M.HttpPort(url)
    {
      if url.port == "" {
        port := if url.scheme == "https" then M.HTTPS_PORT else M.HTTP_PORT;
      } else {
        port := url.integerPort;
      }
    }
  }
}
