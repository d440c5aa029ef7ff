/** URLs built from their components (section 3 of RFC 3986) and what the parser makes of them. */
module UrlText {
  import opened Wrappers
  import opened Ascii
  import opened UrlMachine

  datatype Credentials = NoCredentials | User(name: string) | UserAndPassword(name: string, password: string)

  /** `path` is what follows the slash after the authority. */
  datatype Parts = Parts(
    scheme: string,
    credentials: Credentials,
    host: string,
    port: Option<string>,
    path: string,
    query: Option<string>,
    fragment: Option<string>)

  predicate IsScheme(s: string) {
    forall i :: 0 <= i < |s| ==> IsSchemeChar(s[i])
  }

  predicate IsHost(s: string) {
    forall i :: 0 <= i < |s| ==> IsHostChar(s[i])
  }

  predicate IsPassword(s: string) {
    forall i :: 0 <= i < |s| ==> IsPasswordChar(s[i])
  }

  predicate OnlyDigits(s: string) {
    forall i :: 0 <= i < |s| ==> IsDigit(s[i])
  }

  predicate IsPath(s: string) {
    forall i :: 0 <= i < |s| ==> s[i] != '#' && s[i] != '?'
  }

  /** Everything but that the password is not made of digits only. */
  predicate WellFormed(u: Parts) {
    && IsScheme(u.scheme) && IsHost(u.host) && IsPath(u.path)
    && (u.credentials.User? ==> IsHost(u.credentials.name))
    && (u.credentials.UserAndPassword? ==> IsHost(u.credentials.name) && IsPassword(u.credentials.password))
    && (u.port.Some? ==> OnlyDigits(u.port.value))
    && (u.query.Some? ==> IsPath(u.query.value))
  }

  predicate PasswordReadable(u: Parts) {
    u.credentials.UserAndPassword? ==> !OnlyDigits(u.credentials.password)
  }

  function CredentialsText(c: Credentials): string {
    match c
    case NoCredentials => ""
    case User(name) => name + "@"
    case UserAndPassword(name, password) => name + ":" + password + "@"
  }

  function Prefixed(prefix: string, s: Option<string>): string {
    if s.Some? then prefix + s.value else ""
  }

  function AfterAuthority(u: Parts): string {
    u.path + Prefixed("?", u.query) + Prefixed("#", u.fragment)
  }

  function UrlString(u: Parts): string {
    u.scheme + "://" + CredentialsText(u.credentials) + u.host + Prefixed(":", u.port) + "/" + AfterAuthority(u)
  }

  function ValueOr(s: Option<string>): string {
    if s.Some? then s.value else ""
  }

  function NameOf(c: Credentials): string {
    if c.NoCredentials? then "" else c.name
  }

  function PasswordOf(c: Credentials): string {
    if c.UserAndPassword? then c.password else ""
  }

  function UrlOf(u: Parts): Url {
    Url(u.scheme, NameOf(u.credentials), PasswordOf(u.credentials), u.host, ValueOr(u.port), "/" + u.path,
        ValueOr(u.query), ValueOr(u.fragment), ToPort(Number(10, ValueOr(u.port), 0)))
  }

  // ----- runs one after the other -----

  lemma {:induction false} RunConcat(p: Parser, a: string, b: string)
    ensures Run(p, a + b) == Run(Run(p, a), b)
    decreases |a|
  {
    if a == "" {
      assert a + b == b;
    } else if p.status.Going? {
      assert (a + b)[0] == a[0] && (a + b)[1..] == a[1..] + b;
      RunConcat(Step(p, a[0]), a[1..], b);
    }
  }

  lemma RunOne(p: Parser, c: char)
    requires p.status.Going?
    ensures Run(p, [c]) == Step(p, c)
  {
    var q := Step(p, c);
    hide Step;
    assert [c][1..] == "" && Run(q, "") == q;
  }

  lemma RunThen(p: Parser, a: string, q: Parser, b: string, r: Parser)
    requires Run(p, a) == q && Run(q, b) == r
    ensures Run(p, a + b) == r
  {
    hide Run;
    RunConcat(p, a, b);
  }

  /** A character that the parser appends without leaving its state. */
  predicate Absorbs(state: State, c: char) {
    match state
    case Scheme => IsSchemeChar(c)
    case UsernameOrHostname => IsHostChar(c)
    case Password => IsPasswordChar(c)
    case Hostname => IsHostChar(c)
    case PortOrPassword => IsDigit(c)
    case Port => IsDigit(c)
    case Path => c != '#' && c != '?'
    case Query => c != '#' && c != '?'
    case Fragment => true
    case _ => false
  }

  function Absorbed(p: Parser, s: string): Parser {
    match p.state
    case Scheme => p.(url := p.url.(scheme := p.url.scheme + s))
    case UsernameOrHostname => p.(usernameOrHostname := p.usernameOrHostname + s)
    case Password => p.(url := p.url.(password := p.url.password + s))
    case Hostname => p.(url := p.url.(hostname := p.url.hostname + s))
    case PortOrPassword => p.(portOrPassword := p.portOrPassword + s)
    case Port => p.(portOrPassword := p.portOrPassword + s)
    case Path => p.(url := p.url.(path := p.url.path + s))
    case Query => p.(url := p.url.(query := p.url.query + s))
    case Fragment => p.(url := p.url.(fragment := p.url.fragment + s))
    case _ => p
  }

  lemma AbsorbMore(p: Parser, a: string, b: string)
    ensures Absorbed(Absorbed(p, a), b) == Absorbed(p, a + b)
    ensures Absorbed(p, a).state == p.state && Absorbed(p, a).status == p.status
  {
    var u := p.url;
    assert forall x: string :: x + a + b == x + (a + b);
    assert u.scheme + a + b == u.scheme + (a + b) && u.password + a + b == u.password + (a + b);
    assert u.hostname + a + b == u.hostname + (a + b) && u.path + a + b == u.path + (a + b);
    assert u.query + a + b == u.query + (a + b) && u.fragment + a + b == u.fragment + (a + b);
    assert p.usernameOrHostname + a + b == p.usernameOrHostname + (a + b);
    assert p.portOrPassword + a + b == p.portOrPassword + (a + b);
  }

  lemma AbsorbNothing(p: Parser)
    ensures Absorbed(p, "") == p
  {
    var u := p.url;
    assert u.scheme + "" == u.scheme && u.password + "" == u.password && u.hostname + "" == u.hostname;
    assert u.path + "" == u.path && u.query + "" == u.query && u.fragment + "" == u.fragment;
    assert p.usernameOrHostname + "" == p.usernameOrHostname && p.portOrPassword + "" == p.portOrPassword;
  }

  lemma {:induction false} Span(p: Parser, s: string)
    requires p.status.Going? && forall i :: 0 <= i < |s| ==> Absorbs(p.state, s[i])
    ensures Run(p, s) == Absorbed(p, s)
    decreases |s|
  {
    if s == "" {
      AbsorbNothing(p);
    } else {
      var q := Absorbed(p, [s[0]]);
      assert Step(p, s[0]) == q;
      AbsorbMore(p, [s[0]], s[1..]);
      hide Absorbed, Step, Absorbs;
      Span(q, s[1..]);
      assert s == [s[0]] + s[1..];
    }
  }

  // ----- the components in order -----

  function AfterScheme(u: Parts): Parser {
    START.(state := UsernameOrHostname, url := START.url.(scheme := u.scheme))
  }

  lemma SchemeRead(u: Parts)
    requires IsScheme(u.scheme)
    ensures Run(START, u.scheme + "://") == AfterScheme(u)
  {
    var p := START.(url := START.url.(scheme := u.scheme));
    var q, r := p.(state := SlashAfterScheme1), p.(state := SlashAfterScheme2);
    assert "" + u.scheme == u.scheme;
    Span(START, u.scheme);
    RunOne(p, ':');
    RunOne(q, '/');
    RunOne(r, '/');
    hide Step;
    RunThen(p, ":", q, "/", r);
    RunThen(p, ":/", r, "/", AfterScheme(u));
    RunThen(START, u.scheme, p, "://", AfterScheme(u));
  }

  function FirstNonDigit(s: string): (k: nat)
    requires !OnlyDigits(s)
    ensures k < |s| && !IsDigit(s[k]) && forall i :: 0 <= i < k ==> IsDigit(s[i])
  {
    if !IsDigit(s[0]) then 0
    else
      assert s == s[..1] + s[1..];
      1 + FirstNonDigit(s[1..])
  }

  /** The parser after the credentials. */
  function AtHost(u: Parts): Parser {
    START.(state := Hostname,
           url := START.url.(scheme := u.scheme, username := NameOf(u.credentials),
                                password := PasswordOf(u.credentials)))
  }

  lemma UserRead(u: Parts, name: string)
    requires IsHost(name)
    ensures Run(AfterScheme(u), name) == AfterScheme(u).(usernameOrHostname := name)
  {
    assert "" + name == name;
    Span(AfterScheme(u), name);
  }

  /** From the colon after the user name to the at sign. */
  lemma PasswordRead(p: Parser, name: string, password: string)
    requires p.status.Going? && p.state.PortOrPassword? && p.usernameOrHostname == name && p.portOrPassword == ""
    requires p.url.username == "" && p.url.password == ""
    requires IsPassword(password) && !OnlyDigits(password)
    ensures Run(p, password + "@")
            == p.(state := Hostname, usernameOrHostname := "", url := p.url.(username := name, password := password))
  {
    var k := FirstNonDigit(password);
    var done := p.(state := Password, usernameOrHostname := "", url := p.url.(username := name, password := password));
    var q := p.(portOrPassword := password[..k]);
    var r := done.(url := done.url.(password := password[..k + 1]));
    assert "" + password[..k] == password[..k] && password[..k] + [password[k]] == password[..k + 1];
    assert password[..k + 1] + password[k + 1..] == password;
    Span(p, password[..k]);
    RunOne(q, password[k]);
    assert Step(q, password[k]) == r;
    Span(r, password[k + 1..]);
    RunOne(done, '@');
    hide Step, Absorbs, Absorbed;
    RunThen(p, password[..k], q, [password[k]], r);
    RunThen(p, password[..k + 1], r, password[k + 1..], done);
    RunThen(p, password, done, "@", done.(state := Hostname));
  }

  lemma CredentialsRead(u: Parts)
    requires WellFormed(u) && PasswordReadable(u) && !u.credentials.NoCredentials?
    ensures Run(AfterScheme(u), CredentialsText(u.credentials)) == AtHost(u)
  {
    var name := u.credentials.name;
    var p := AfterScheme(u).(usernameOrHostname := name);
    UserRead(u, name);
    if u.credentials.User? {
      RunOne(p, '@');
      RunThen(AfterScheme(u), name, p, "@", AtHost(u));
    } else {
      var password := u.credentials.password;
      var q := p.(state := PortOrPassword);
      RunOne(p, ':');
      PasswordRead(q, name, password);
      hide Step;
      RunThen(AfterScheme(u), name, p, ":", q);
      RunThen(AfterScheme(u), name + ":", q, password + "@", AtHost(u));
      assert name + ":" + (password + "@") == CredentialsText(u.credentials);
    }
  }

  /** The parser after the authority and its slash. */
  function AtPath(u: Parts): Parser {
    START.(state := Path, url := UrlOf(u).(path := "/", query := "", fragment := ""))
  }

  lemma AtoiDigits(s: string)
    requires OnlyDigits(s)
    ensures Atoi(s) == Number(10, s, 0)
  {
    assert s != "" ==> IsDigit(s[0]);
  }

  function AuthorityEnd(u: Parts): string {
    u.host + Prefixed(":", u.port) + "/"
  }

  lemma PortRead(p: Parser, q: Parser, digits: string)
    requires p.status.Going? && (p.state.Port? || p.state.PortOrPassword?) && p.portOrPassword == ""
             && OnlyDigits(digits)
    requires q == Step(p.(portOrPassword := digits), '/')
    ensures Run(p, digits + "/") == q
  {
    assert "" + digits == digits;
    Span(p, digits);
    RunOne(p.(portOrPassword := digits), '/');
    hide Step;
    RunThen(p, digits, p.(portOrPassword := digits), "/", q);
  }

  /** The host, and the port if there is one, after credentials. */
  lemma HostRead(u: Parts)
    requires WellFormed(u) && !u.credentials.NoCredentials?
    ensures Run(AtHost(u), AuthorityEnd(u)) == AtPath(u)
  {
    var p := AtHost(u).(url := AtHost(u).url.(hostname := u.host));
    HostNameRead(u);
    hide AtPath, Step, Run;
    if u.port.None? {
      HostEnds(p, u);
      RunThen(AtHost(u), u.host, p, "/", AtPath(u));
      assert u.host + "/" == AuthorityEnd(u);
    } else {
      HostPortRead(p, u);
      RunThen(AtHost(u), u.host, p, ":" + (u.port.value + "/"), AtPath(u));
      assert u.host + (":" + (u.port.value + "/")) == AuthorityEnd(u);
    }
  }

  lemma HostNameRead(u: Parts)
    requires WellFormed(u)
    ensures Run(AtHost(u), u.host) == AtHost(u).(url := AtHost(u).url.(hostname := u.host))
  {
    assert "" + u.host == u.host;
    Span(AtHost(u), u.host);
  }

  lemma HostEnds(p: Parser, u: Parts)
    requires WellFormed(u) && u.port.None? && p == AtHost(u).(url := AtHost(u).url.(hostname := u.host))
    ensures Run(p, "/") == AtPath(u)
  {
    RunOne(p, '/');
  }

  lemma HostPortRead(p: Parser, u: Parts)
    requires WellFormed(u) && u.port.Some? && p == AtHost(u).(url := AtHost(u).url.(hostname := u.host))
    ensures Run(p, ":" + (u.port.value + "/")) == AtPath(u)
  {
    var q := p.(state := Port);
    AtoiDigits(u.port.value);
    assert Step(p, ':') == q && Step(q.(portOrPassword := u.port.value), '/') == AtPath(u);
    hide Step, AtPath;
    RunOne(p, ':');
    PortRead(q, AtPath(u), u.port.value);
    RunThen(p, ":", q, u.port.value + "/", AtPath(u));
  }

  /** The same without credentials: what could be a user name turns out to be the host. */
  lemma BareHostRead(u: Parts)
    requires WellFormed(u) && u.credentials.NoCredentials?
    ensures Run(AfterScheme(u), AuthorityEnd(u)) == AtPath(u)
  {
    var p := AfterScheme(u).(usernameOrHostname := u.host);
    UserRead(u, u.host);
    if u.port.None? {
      RunOne(p, '/');
      RunThen(AfterScheme(u), u.host, p, "/", AtPath(u));
      assert u.host + "/" == AuthorityEnd(u);
    } else {
      var q := p.(state := PortOrPassword);
      AtoiDigits(u.port.value);
      RunOne(p, ':');
      PortRead(q, AtPath(u), u.port.value);
      hide Step;
      RunThen(AfterScheme(u), u.host, p, ":", q);
      RunThen(AfterScheme(u), u.host + ":", q, u.port.value + "/", AtPath(u));
      assert u.host + ":" + (u.port.value + "/") == AuthorityEnd(u);
    }
  }

  lemma FragmentRead(p: Parser, u: Parts)
    requires p.status.Going? && (p.state.Path? || p.state.Query?) && p.url.fragment == ""
    ensures var q := Run(p, Prefixed("#", u.fragment));
            q.status.Going? && q.url == p.url.(fragment := ValueOr(u.fragment))
            && q.usernameOrHostname == p.usernameOrHostname && q.portOrPassword == p.portOrPassword
  {
    if u.fragment.Some? {
      var f := u.fragment.value;
      assert "" + f == f;
      RunOne(p, '#');
      Span(p.(state := Fragment), f);
      hide Step;
      RunConcat(p, "#", f);
    }
  }

  lemma QueryRead(p: Parser, u: Parts)
    requires WellFormed(u) && p.status.Going? && p.state.Path? && p.url.query == "" && p.url.fragment == ""
    ensures var q := Run(p, Prefixed("?", u.query));
            q.status.Going? && (q.state.Path? || q.state.Query?) && q.url == p.url.(query := ValueOr(u.query))
            && q.usernameOrHostname == p.usernameOrHostname && q.portOrPassword == p.portOrPassword
  {
    if u.query.Some? {
      var f := u.query.value;
      assert "" + f == f;
      RunOne(p, '?');
      Span(p.(state := Query), f);
      hide Step;
      RunConcat(p, "?", f);
    }
  }

  lemma PathRead(u: Parts)
    requires WellFormed(u)
    ensures Result(Run(AtPath(u), AfterAuthority(u))) == Parsed(true, UrlOf(u))
  {
    var p := AtPath(u).(url := AtPath(u).url.(path := "/" + u.path));
    Span(AtPath(u), u.path);
    var q := Run(p, Prefixed("?", u.query));
    QueryRead(p, u);
    FragmentRead(q, u);
    hide Run;
    RunConcat(AtPath(u), u.path, Prefixed("?", u.query));
    RunConcat(AtPath(u), u.path + Prefixed("?", u.query), Prefixed("#", u.fragment));
  }

  lemma UrlStringSplit(u: Parts)
    ensures UrlString(u) == u.scheme + "://" + CredentialsText(u.credentials) + AuthorityEnd(u) + AfterAuthority(u)
  {
    var a := u.scheme + "://" + CredentialsText(u.credentials);
    assert a + u.host + Prefixed(":", u.port) + "/" == a + (u.host + Prefixed(":", u.port) + "/");
  }

  lemma ReadableRead(u: Parts)
    requires WellFormed(u) && PasswordReadable(u)
    ensures Parse(UrlString(u)) == Parsed(true, UrlOf(u))
  {
    SchemeRead(u);
    PathRead(u);
    UrlStringSplit(u);
    var a, c := u.scheme + "://", CredentialsText(u.credentials);
    if u.credentials.NoCredentials? {
      BareHostRead(u);
      hide Run, AtPath, AfterScheme, Result, AuthorityEnd, AfterAuthority, UrlString;
      assert a + c == a;
      RunConcat(START, a, AuthorityEnd(u));
    } else {
      CredentialsRead(u);
      HostRead(u);
      hide Run, AtPath, AtHost, AfterScheme, Result, AuthorityEnd, AfterAuthority, UrlString, CredentialsText;
      RunConcat(START, a, c);
      RunConcat(START, a + c, AuthorityEnd(u));
    }
    RunConcat(START, a + c + AuthorityEnd(u), AfterAuthority(u));
  }

  /** A password of digits is taken for a port, so that the at sign after it is an error. */
  lemma DigitsPasswordFails(u: Parts)
    requires WellFormed(u) && !PasswordReadable(u)
    ensures var r := AfterScheme(u).(state := PortOrPassword, usernameOrHostname := u.credentials.name,
                                     portOrPassword := u.credentials.password);
            Run(AfterScheme(u), CredentialsText(u.credentials)) == Bad(r)
  {
    var name, password := u.credentials.name, u.credentials.password;
    var p := AfterScheme(u).(usernameOrHostname := name);
    var q := p.(state := PortOrPassword);
    var r := q.(portOrPassword := password);
    assert "" + password == password;
    UserRead(u, name);
    Span(q, password);
    assert Step(p, ':') == q && Step(r, '@') == Bad(r);
    hide Step, AfterScheme, Bad;
    RunOne(p, ':');
    RunOne(r, '@');
    RunThen(AfterScheme(u), name, p, ":", q);
    RunThen(AfterScheme(u), name + ":", q, password, r);
    RunThen(AfterScheme(u), name + ":" + password, r, "@", Bad(r));
  }

  /** Unless the password is empty, the assertion at the end fails too. */
  lemma DigitsPasswordRead(u: Parts)
    requires WellFormed(u) && !PasswordReadable(u)
    ensures Parse(UrlString(u))
            == if u.credentials.password != "" then Stopped
               else Parsed(false, NO_URL.(hostname := u.credentials.name))
  {
    var r := AfterScheme(u).(state := PortOrPassword, usernameOrHostname := u.credentials.name,
                             portOrPassword := u.credentials.password);
    var a, c, rest := u.scheme + "://", CredentialsText(u.credentials), AuthorityEnd(u) + AfterAuthority(u);
    SchemeRead(u);
    DigitsPasswordFails(u);
    assert Run(Bad(r), rest) == Bad(r);
    UrlStringSplit(u);
    hide Run, AuthorityEnd, AfterAuthority, UrlString, CredentialsText, WellFormed;
    RunConcat(START, a, c);
    RunConcat(START, a + c, rest);
    assert a + c + rest == a + c + AuthorityEnd(u) + AfterAuthority(u);
  }

  /** Parsing the assembled text gives back every component, exactly when the password, if there is one, is not
      made of digits only. */
  lemma UrlRoundTrip(u: Parts)
    requires WellFormed(u)
    ensures Parse(UrlString(u)) == Parsed(true, UrlOf(u)) <==> PasswordReadable(u)
  {
    hide WellFormed, UrlString, UrlOf, Parse;
    if PasswordReadable(u) {
      ReadableRead(u);
    } else {
      DigitsPasswordRead(u);
    }
  }

  /** The port that is connected to: the decimal port of the text, reduced to 16 bits, or the default of the
      scheme. A port below 65536 is not changed. */
  lemma PortToConnect(u: Parts)
    requires WellFormed(u) && PasswordReadable(u)
    ensures Parse(UrlString(u)).Parsed?
    ensures var port, n := HttpPort(Parse(UrlString(u)).url), Number(10, ValueOr(u.port), 0);
            && (ValueOr(u.port) != "" ==> port % 65536 == n % 65536 && port < 65536 && (port == n <==> n < 65536))
            && (ValueOr(u.port) == "" ==> port == if u.scheme == "https" then HTTPS_PORT else HTTP_PORT)
  {
    ReadableRead(u);
    hide Parse, UrlString, Number;
  }

  // ----- the alphabets, and the usual URL -----

  lemma UrlAlphabets(c: char)
    ensures IsHostChar(c) <==> IsAlnum(c) || c in "-._~%"
    ensures IsSchemeChar(c) <==> IsAlnum(c) || c in "+-."
    ensures IsPasswordChar(c) <==> IsAlnum(c) || c == '%'
  {
  }

  /** Letters, digits and these other characters make a host. */
  predicate IsPlainHost(host: string) {
    forall i :: 0 <= i < |host| ==>
      || host[i] in "ABCDEFGHIJKLMNOPQRSTUVWXYZ" || host[i] in "abcdefghijklmnopqrstuvwxyz"
      || host[i] in "0123456789" || host[i] in "-._~%"
  }

  lemma PlainHostIsHost(host: string)
    requires IsPlainHost(host)
    ensures IsHost(host)
  {
    forall i | 0 <= i < |host|
      ensures IsHostChar(host[i])
    {
      AlnumAlphabet(host[i]);
      UrlAlphabets(host[i]);
      hide IsHostChar, IsAlnum;
    }
  }

  lemma SchemesAreSchemes()
    ensures IsScheme("http") && IsScheme("https")
  {
    assert IsSchemeChar('h') && IsSchemeChar('t') && IsSchemeChar('p') && IsSchemeChar('s');
    hide IsSchemeChar;
  }

  /** The usual URL: its host and its path are found, and its port is the one after the host, or 80 for http and 443 for
      https. */
  lemma UsualUrl(scheme: string, host: string, port: nat, path: string)
    requires (scheme == "http" || scheme == "https") && IsPlainHost(host) && IsPath(path) && port < 65536
    ensures var r := Parse(scheme + "://" + host + "/" + path);
            && r.Parsed? && r.valid && r.url.scheme == scheme && r.url.hostname == host && r.url.path == "/" + path
            && HttpPort(r.url) == if scheme == "https" then 443 else 80
    ensures var r := Parse(scheme + "://" + host + ":" + Text(10, port) + "/" + path);
            && r.Parsed? && r.valid && r.url.scheme == scheme && r.url.hostname == host && r.url.path == "/" + path
            && HttpPort(r.url) == port
  {
    hide IsHost, IsScheme, IsPath, IsPlainHost, OnlyDigits, Parse, UrlString, Number;
    PlainHostIsHost(host);
    SchemesAreSchemes();
    var bare := Parts(scheme, NoCredentials, host, None, path, None, None);
    var full := bare.(port := Some(Text(10, port)));
    UsualText(scheme, host, port, path);
    NothingIsPath();
    TextIsDigits(port);
    ReadableRead(bare);
    ReadableRead(full);
  }

  lemma NothingIsPath()
    ensures IsPath("")
  {
  }

  lemma TextIsDigits(n: nat)
    ensures OnlyDigits(Text(10, n)) && Text(10, n) != "" && Number(10, Text(10, n), 0) == n
  {
    NumberOfText(10, n);
    assert forall i :: 0 <= i < |Text(10, n)| ==> IsDigitOf(10, Text(10, n)[i]);
  }

  lemma UsualText(scheme: string, host: string, port: nat, path: string)
    ensures var bare := Parts(scheme, NoCredentials, host, None, path, None, None);
            && UrlString(bare) == scheme + "://" + host + "/" + path
            && UrlString(bare.(port := Some(Text(10, port))))
               == scheme + "://" + host + ":" + Text(10, port) + "/" + path
  {
    var a, p := scheme + "://", Text(10, port);
    hide Text;
    assert a + "" + host + "" + "/" + (path + "" + "") == a + host + "/" + path;
    assert a + "" + host + (":" + p) + "/" + (path + "" + "") == a + host + ":" + p + "/" + path;
  }
}
