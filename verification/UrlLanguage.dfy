/** Exactly which texts the URL parser takes for valid, and what it makes of each. */
module UrlLanguage {
  import opened Wrappers
  import opened Ascii
  import opened UrlMachine
  import opened UrlText

  /** A scheme, with the two slashes after its colon or without them. */
  datatype Start = Start(scheme: string, slashes: bool)

  /** How far a text has got. `u` holds what follows a start, whose scheme it repeats. */
  datatype Reading =
    | InScheme(scheme: string)
    | AfterColon(scheme: string)
    | AfterSlash(scheme: string)
    | InName(start: Start, name: string)
    | InDigits(start: Start, name: string, digits: string)
    | InPassword(start: Start, name: string, password: string)
    | InHost(start: Start, credentials: Credentials, host: string)
    | InBracket(start: Start, credentials: Credentials)
    | InPort(start: Start, credentials: Credentials, host: string, digits: string)
    | InRest(start: Start, u: Parts)

  function StartText(s: Start): string {
    s.scheme + if s.slashes then "://" else ":"
  }

  function TextOf(r: Reading): string {
    match r
    case InScheme(scheme) => scheme
    case AfterColon(scheme) => scheme + ":"
    case AfterSlash(scheme) => scheme + ":/"
    case InName(start, name) => StartText(start) + name
    case InDigits(start, name, digits) => StartText(start) + name + ":" + digits
    case InPassword(start, name, password) => StartText(start) + name + ":" + password
    case InHost(start, credentials, host) => StartText(start) + CredentialsText(credentials) + host
    case InBracket(start, credentials) => StartText(start) + CredentialsText(credentials) + "["
    case InPort(start, credentials, host, digits) =>
      StartText(start) + CredentialsText(credentials) + host + ":" + digits
    case InRest(start, u) =>
      StartText(start) + CredentialsText(u.credentials) + u.host + Prefixed(":", u.port) + "/" + AfterAuthority(u)
  }

  /** Without the two slashes, the authority begins with a letter or a digit. */
  predicate Begins(start: Start, authority: string) {
    IsScheme(start.scheme) && (!start.slashes ==> authority != "" && IsAlnum(authority[0]))
  }

  predicate GoodCredentials(c: Credentials) {
    match c
    case NoCredentials => true
    case User(name) => IsHost(name)
    case UserAndPassword(name, password) => IsHost(name) && IsPassword(password) && !OnlyDigits(password)
  }

  /** What comes first in the authority. */
  function FirstName(c: Credentials, host: string): string {
    if c.NoCredentials? then host else c.name
  }

  predicate NoFragment(s: string) {
    forall i :: 0 <= i < |s| ==> s[i] != '#'
  }

  /** Well-formed and readable; the query may have further question marks. */
  predicate GoodParts(start: Start, u: Parts) {
    && u.scheme == start.scheme && Begins(start, FirstName(u.credentials, u.host))
    && GoodCredentials(u.credentials) && IsHost(u.host) && IsPath(u.path)
    && (u.port.Some? ==> OnlyDigits(u.port.value))
    && (u.query.Some? ==> NoFragment(u.query.value))
  }

  predicate Good(r: Reading) {
    match r
    case InScheme(scheme) => IsScheme(scheme)
    case AfterColon(scheme) => IsScheme(scheme)
    case AfterSlash(scheme) => IsScheme(scheme)
    case InName(start, name) => Begins(start, name) && IsHost(name)
    case InDigits(start, name, digits) => Begins(start, name) && IsHost(name) && OnlyDigits(digits)
    case InPassword(start, name, password) =>
      Begins(start, name) && IsHost(name) && IsPassword(password) && !OnlyDigits(password)
    case InHost(start, credentials, host) =>
      !credentials.NoCredentials? && Begins(start, credentials.name) && GoodCredentials(credentials) && IsHost(host)
    case InBracket(start, credentials) =>
      !credentials.NoCredentials? && Begins(start, credentials.name) && GoodCredentials(credentials)
    case InPort(start, credentials, host, digits) =>
      && !credentials.NoCredentials? && Begins(start, credentials.name) && GoodCredentials(credentials)
      && IsHost(host) && OnlyDigits(digits)
    case InRest(start, u) => GoodParts(start, u)
  }

  /** A text without its question marks. */
  function Unmarked(s: string): string {
    if s == "" then "" else if s[|s| - 1] == '?' then Unmarked(s[..|s| - 1]) else Unmarked(s[..|s| - 1]) + [s[|s| - 1]]
  }

  /** The URL of a text that has got past its authority. */
  function UrlFound(u: Parts): Url {
    UrlOf(u).(query := Unmarked(ValueOr(u.query)))
  }

  /** The URL read up to the credentials. */
  function SoFar(start: Start, c: Credentials): Url {
    START.url.(scheme := start.scheme, username := NameOf(c), password := PasswordOf(c))
  }

  /** The parser after the text. */
  function ParserOf(r: Reading): Parser {
    match r
    case InScheme(scheme) => START.(url := START.url.(scheme := scheme))
    case AfterColon(scheme) => START.(state := SlashAfterScheme1, url := START.url.(scheme := scheme))
    case AfterSlash(scheme) => START.(state := SlashAfterScheme2, url := START.url.(scheme := scheme))
    case InName(start, name) =>
      START.(state := UsernameOrHostname, usernameOrHostname := name, url := SoFar(start, NoCredentials))
    case InDigits(start, name, digits) =>
      START.(state := PortOrPassword, usernameOrHostname := name, portOrPassword := digits,
             url := SoFar(start, NoCredentials))
    case InPassword(start, name, password) =>
      START.(state := Password, url := SoFar(start, UserAndPassword(name, password)))
    case InHost(start, c, host) => START.(state := Hostname, url := SoFar(start, c).(hostname := host))
    case InBracket(start, c) => START.(state := IPV6Hostname, url := SoFar(start, c))
    case InPort(start, c, host, digits) =>
      START.(state := Port, portOrPassword := digits, url := SoFar(start, c).(hostname := host))
    case InRest(start, u) =>
      START.(state := if u.fragment.Some? then Fragment else if u.query.Some? then Query else Path, url := UrlFound(u))
  }

  // ----- one more character -----

  ghost predicate Follows(r: Reading, c: char, next: Reading) {
    Good(next) && TextOf(next) == TextOf(r) + [c] && ParserOf(next) == Step(ParserOf(r), c)
  }

  lemma RestText(start: Start, u: Parts, v: Parts, c: char)
    requires v == u.(path := v.path, query := v.query, fragment := v.fragment)
    requires AfterAuthority(v) == AfterAuthority(u) + [c]
    ensures TextOf(InRest(start, v)) == TextOf(InRest(start, u)) + [c]
  {
    hide AfterAuthority;
  }

  lemma FragmentGrows(start: Start, u: Parts, c: char)
    requires GoodParts(start, u) && u.fragment.Some?
    ensures Follows(InRest(start, u), c, InRest(start, u.(fragment := Some(u.fragment.value + [c]))))
  {
    hide TextOf, StartText, Begins, GoodCredentials, IsHost, IsPath, OnlyDigits;
    RestText(start, u, u.(fragment := Some(u.fragment.value + [c])), c);
  }

  lemma FragmentBegins(start: Start, u: Parts)
    requires GoodParts(start, u) && u.fragment.None?
    ensures Follows(InRest(start, u), '#', InRest(start, u.(fragment := Some(""))))
  {
    hide TextOf, StartText, Begins, GoodCredentials, IsHost, IsPath, OnlyDigits;
    RestText(start, u, u.(fragment := Some("")), '#');
  }

  lemma QueryGrows(start: Start, u: Parts, c: char)
    requires GoodParts(start, u) && u.fragment.None? && u.query.Some? && c != '#'
    ensures Follows(InRest(start, u), c, InRest(start, u.(query := Some(u.query.value + [c]))))
  {
    hide TextOf, StartText, Begins, GoodCredentials, IsHost, IsPath, OnlyDigits;
    assert (u.query.value + [c])[..|u.query.value|] == u.query.value;
    RestText(start, u, u.(query := Some(u.query.value + [c])), c);
  }

  lemma QueryBegins(start: Start, u: Parts)
    requires GoodParts(start, u) && u.fragment.None? && u.query.None?
    ensures Follows(InRest(start, u), '?', InRest(start, u.(query := Some(""))))
  {
    hide TextOf, StartText, Begins, GoodCredentials, IsHost, IsPath, OnlyDigits;
    RestText(start, u, u.(query := Some("")), '?');
  }

  lemma PathGrows(start: Start, u: Parts, c: char)
    requires GoodParts(start, u) && u.fragment.None? && u.query.None? && c != '#' && c != '?'
    ensures Follows(InRest(start, u), c, InRest(start, u.(path := u.path + [c])))
  {
    hide TextOf, StartText, Begins, GoodCredentials, IsHost, OnlyDigits;
    RestText(start, u, u.(path := u.path + [c]), c);
  }

  /** The parts of a text that has just got past its authority. */
  function PastAuthority(start: Start, c: Credentials, host: string, port: Option<string>): Reading {
    InRest(start, Parts(start.scheme, c, host, port, "", None, None))
  }

  lemma PastText(start: Start, c: Credentials, host: string, port: Option<string>)
    ensures TextOf(PastAuthority(start, c, host, port))
            == StartText(start) + CredentialsText(c) + host + Prefixed(":", port) + "/"
  {
    hide StartText, CredentialsText;
  }

  lemma NameEnds(start: Start, name: string)
    requires Good(InName(start, name))
    ensures Follows(InName(start, name), '/', PastAuthority(start, NoCredentials, name, None))
  {
    PastText(start, NoCredentials, name, None);
    hide StartText, Begins, AfterAuthority;
  }

  lemma DigitsEnd(start: Start, name: string, digits: string)
    requires Good(InDigits(start, name, digits))
    ensures Follows(InDigits(start, name, digits), '/', PastAuthority(start, NoCredentials, name, Some(digits)))
  {
    hide StartText, Begins, AfterAuthority, Atoi, Number, OnlyDigits, IsHost, TextOf, ParserOf, Step, CredentialsText,
      Prefixed;
    PastText(start, NoCredentials, name, Some(digits));
    DigitsText(start, NoCredentials, name, digits);
    DigitsDone(start, name, digits);
    assert IsPath("") by { NothingIsPath(); }
  }

  lemma DigitsDone(start: Start, name: string, digits: string)
    requires OnlyDigits(digits)
    ensures Step(ParserOf(InDigits(start, name, digits)), '/')
            == ParserOf(PastAuthority(start, NoCredentials, name, Some(digits)))
  {
    AtoiDigits(digits);
    hide Atoi, Number, OnlyDigits, StepScheme, StepAuthority, StepPath;
  }

  lemma PortDigitsDone(start: Start, c: Credentials, host: string, digits: string)
    requires OnlyDigits(digits)
    ensures Step(ParserOf(InPort(start, c, host, digits)), '/') == ParserOf(PastAuthority(start, c, host, Some(digits)))
  {
    AtoiDigits(digits);
    hide Atoi, Number, OnlyDigits, StepScheme, StepAuthority, StepPath;
  }

  lemma DigitsText(start: Start, c: Credentials, host: string, digits: string)
    ensures StartText(start) + CredentialsText(c) + host + Prefixed(":", Some(digits)) + "/"
            == StartText(start) + CredentialsText(c) + host + ":" + digits + "/"
    ensures c.NoCredentials? ==>
              TextOf(InDigits(start, host, digits)) == StartText(start) + CredentialsText(c) + host + ":" + digits
    ensures TextOf(InPort(start, c, host, digits)) == StartText(start) + CredentialsText(c) + host + ":" + digits
  {
    hide StartText;
    var a := StartText(start) + CredentialsText(c) + host;
    assert a + (":" + digits) == a + ":" + digits;
  }

  lemma HostEnds(start: Start, c: Credentials, host: string)
    requires Good(InHost(start, c, host))
    ensures Follows(InHost(start, c, host), '/', PastAuthority(start, c, host, None))
  {
    PastText(start, c, host, None);
    hide StartText, CredentialsText, Begins, GoodCredentials, AfterAuthority, IsHost;
  }

  lemma PortEnds(start: Start, c: Credentials, host: string, digits: string)
    requires Good(InPort(start, c, host, digits))
    ensures Follows(InPort(start, c, host, digits), '/', PastAuthority(start, c, host, Some(digits)))
  {
    hide StartText, CredentialsText, Begins, GoodCredentials, AfterAuthority, IsHost, OnlyDigits, Atoi, Number, TextOf,
      ParserOf, Step, Prefixed;
    PastText(start, c, host, Some(digits));
    DigitsText(start, c, host, digits);
    PortDigitsDone(start, c, host, digits);
    assert IsPath("") by { NothingIsPath(); }
  }

  lemma SchemeGrows(scheme: string, c: char)
    requires IsScheme(scheme) && IsSchemeChar(c)
    ensures Follows(InScheme(scheme), c, InScheme(scheme + [c]))
  {
    hide StepAuthority, StepPort, StepPath;
  }

  lemma SchemeEnds(scheme: string)
    requires IsScheme(scheme)
    ensures Follows(InScheme(scheme), ':', AfterColon(scheme))
    ensures Follows(AfterColon(scheme), '/', AfterSlash(scheme))
    ensures Follows(AfterSlash(scheme), '/', InName(Start(scheme, true), ""))
  {
    hide StepAuthority, StepPort, StepPath;
    assert scheme + ":" + "/" == scheme + ":/" && scheme + ":/" + "/" == scheme + "://" + "";
  }

  lemma BareName(scheme: string, c: char)
    requires IsScheme(scheme) && IsAlnum(c)
    ensures Follows(AfterColon(scheme), c, InName(Start(scheme, false), [c]))
  {
    hide StepAuthority, StepPort, StepPath;
  }

  lemma NameGrows(start: Start, name: string, c: char)
    requires Good(InName(start, name)) && IsHostChar(c)
    ensures Follows(InName(start, name), c, InName(start, name + [c]))
  {
    hide StartText, StepScheme, StepPort, StepPath;
    Appended(StartText(start), name, c);
  }

  /** A component at the end of a text grows with it. */
  lemma Appended(text: string, component: string, c: char)
    ensures text + component + [c] == text + (component + [c])
  {
  }

  lemma NameColon(start: Start, name: string)
    requires Good(InName(start, name))
    ensures Follows(InName(start, name), ':', InDigits(start, name, ""))
  {
    hide StartText, StepScheme, StepPort, StepPath, Begins, IsHost;
  }

  lemma NameAt(start: Start, name: string)
    requires Good(InName(start, name))
    ensures Follows(InName(start, name), '@', InHost(start, User(name), ""))
  {
    hide StartText, StepScheme, StepPort, StepPath, Begins;
    Appended(StartText(start), name, '@');
  }

  lemma DigitsGrow(start: Start, name: string, digits: string, c: char)
    requires Good(InDigits(start, name, digits)) && IsDigit(c)
    ensures Follows(InDigits(start, name, digits), c, InDigits(start, name, digits + [c]))
  {
    hide StartText, StepScheme, StepAuthority, StepPath, Begins, IsHost;
    Appended(StartText(start) + name + ":", digits, c);
  }

  lemma DigitsPassword(start: Start, name: string, digits: string, c: char)
    requires Good(InDigits(start, name, digits)) && IsPasswordChar(c) && !IsDigit(c)
    ensures Follows(InDigits(start, name, digits), c, InPassword(start, name, digits + [c]))
  {
    hide StartText, StepScheme, StepAuthority, StepPath, Begins, IsHost;
    Appended(StartText(start) + name + ":", digits, c);
    assert (digits + [c])[|digits|] == c;
  }

  lemma PasswordGrows(start: Start, name: string, password: string, c: char)
    requires Good(InPassword(start, name, password)) && IsPasswordChar(c)
    ensures Follows(InPassword(start, name, password), c, InPassword(start, name, password + [c]))
  {
    hide StartText, StepScheme, StepPort, StepPath, Begins, IsHost;
    Appended(StartText(start) + name + ":", password, c);
    assert password == (password + [c])[..|password|];
    assert !OnlyDigits(password + [c]);
  }

  lemma PasswordAt(start: Start, name: string, password: string)
    requires Good(InPassword(start, name, password))
    ensures Follows(InPassword(start, name, password), '@', InHost(start, UserAndPassword(name, password), ""))
  {
    hide StartText, StepScheme, StepPort, StepPath, Begins, IsPassword, OnlyDigits;
    var a := StartText(start);
    assert a + name + ":" + password + "@" == a + (name + ":" + password + "@") + "";
  }

  lemma HostGrows(start: Start, credentials: Credentials, host: string, c: char)
    requires Good(InHost(start, credentials, host)) && IsHostChar(c)
    ensures Follows(InHost(start, credentials, host), c, InHost(start, credentials, host + [c]))
  {
    hide StartText, CredentialsText, StepScheme, StepPort, StepPath, Begins, GoodCredentials;
    Appended(StartText(start) + CredentialsText(credentials), host, c);
  }

  lemma HostBracket(start: Start, credentials: Credentials)
    requires Good(InHost(start, credentials, ""))
    ensures Follows(InHost(start, credentials, ""), '[', InBracket(start, credentials))
  {
    hide StartText, CredentialsText, StepScheme, StepPort, StepPath, Begins, GoodCredentials;
  }

  lemma HostColon(start: Start, credentials: Credentials, host: string)
    requires Good(InHost(start, credentials, host))
    ensures Follows(InHost(start, credentials, host), ':', InPort(start, credentials, host, ""))
  {
    hide StartText, CredentialsText, StepScheme, StepPort, StepPath, Begins, GoodCredentials, IsHost;
  }

  lemma PortGrows(start: Start, credentials: Credentials, host: string, digits: string, c: char)
    requires Good(InPort(start, credentials, host, digits)) && IsDigit(c)
    ensures Follows(InPort(start, credentials, host, digits), c, InPort(start, credentials, host, digits + [c]))
  {
    hide StartText, CredentialsText, StepScheme, StepAuthority, StepPath, Begins, GoodCredentials, IsHost;
    Appended(StartText(start) + CredentialsText(credentials) + host + ":", digits, c);
  }

  /** What the parser does not refuse. */
  lemma Accepted(r: Reading, c: char)
    requires Step(ParserOf(r), c).status.Going?
    ensures !r.InBracket?
    ensures r.InScheme? ==> IsSchemeChar(c) || c == ':'
    ensures r.AfterColon? ==> c == '/' || IsAlnum(c)
    ensures r.AfterSlash? ==> c == '/'
    ensures r.InName? ==> IsHostChar(c) || c in {':', '@', '/'}
    ensures r.InDigits? ==> IsDigit(c) || c == '/' || IsPasswordChar(c)
    ensures r.InPassword? ==> IsPasswordChar(c) || c == '@'
    ensures r.InHost? ==> (c == '[' && r.host == "") || IsHostChar(c) || c in {':', '/'}
    ensures r.InPort? ==> IsDigit(c) || c == '/'
  {
    hide StepPath, PortDone, IsSchemeChar, IsHostChar, IsPasswordChar, IsDigit, IsAlnum;
  }

  lemma NextInScheme(r: Reading, c: char) returns (next: Reading)
    requires Good(r) && (r.InScheme? || r.AfterColon? || r.AfterSlash?) && Step(ParserOf(r), c).status.Going?
    ensures Follows(r, c, next)
  {
    hide Follows, Step, ParserOf, IsScheme;
    Accepted(r, c);
    SchemeEnds(r.scheme);
    match r {
      case InScheme(scheme) =>
        if c == ':' {
          next := AfterColon(scheme);
        } else {
          SchemeGrows(scheme, c);
          next := InScheme(scheme + [c]);
        }
      case AfterColon(scheme) =>
        if c == '/' {
          next := AfterSlash(scheme);
        } else {
          BareName(scheme, c);
          next := InName(Start(scheme, false), [c]);
        }
      case AfterSlash(scheme) => next := InName(Start(scheme, true), "");
    }
  }

  lemma NextInName(r: Reading, c: char) returns (next: Reading)
    requires Good(r) && r.InName? && Step(ParserOf(r), c).status.Going?
    ensures Follows(r, c, next)
  {
    hide Follows, Step, ParserOf, Good;
    Accepted(r, c);
    if c == ':' {
      NameColon(r.start, r.name);
      next := InDigits(r.start, r.name, "");
    } else if c == '@' {
      NameAt(r.start, r.name);
      next := InHost(r.start, User(r.name), "");
    } else if c == '/' {
      NameEnds(r.start, r.name);
      next := PastAuthority(r.start, NoCredentials, r.name, None);
    } else {
      NameGrows(r.start, r.name, c);
      next := InName(r.start, r.name + [c]);
    }
  }

  lemma NextInDigits(r: Reading, c: char) returns (next: Reading)
    requires Good(r) && r.InDigits? && Step(ParserOf(r), c).status.Going?
    ensures Follows(r, c, next)
  {
    hide Follows, Step, ParserOf, Good;
    Accepted(r, c);
    if c == '/' {
      DigitsEnd(r.start, r.name, r.digits);
      next := PastAuthority(r.start, NoCredentials, r.name, Some(r.digits));
    } else if IsDigit(c) {
      DigitsGrow(r.start, r.name, r.digits, c);
      next := InDigits(r.start, r.name, r.digits + [c]);
    } else {
      DigitsPassword(r.start, r.name, r.digits, c);
      next := InPassword(r.start, r.name, r.digits + [c]);
    }
  }

  lemma NextInPassword(r: Reading, c: char) returns (next: Reading)
    requires Good(r) && r.InPassword? && Step(ParserOf(r), c).status.Going?
    ensures Follows(r, c, next)
  {
    hide Follows, Step, ParserOf, Good;
    Accepted(r, c);
    if c == '@' {
      PasswordAt(r.start, r.name, r.password);
      next := InHost(r.start, UserAndPassword(r.name, r.password), "");
    } else {
      PasswordGrows(r.start, r.name, r.password, c);
      next := InPassword(r.start, r.name, r.password + [c]);
    }
  }

  lemma NextInHost(r: Reading, c: char) returns (next: Reading)
    requires Good(r) && r.InHost? && Step(ParserOf(r), c).status.Going?
    ensures Follows(r, c, next)
  {
    hide Follows, Step, ParserOf, Good;
    Accepted(r, c);
    if c == '[' && r.host == "" {
      HostBracket(r.start, r.credentials);
      next := InBracket(r.start, r.credentials);
    } else if c == ':' {
      HostColon(r.start, r.credentials, r.host);
      next := InPort(r.start, r.credentials, r.host, "");
    } else if c == '/' {
      HostEnds(r.start, r.credentials, r.host);
      next := PastAuthority(r.start, r.credentials, r.host, None);
    } else {
      HostGrows(r.start, r.credentials, r.host, c);
      next := InHost(r.start, r.credentials, r.host + [c]);
    }
  }

  lemma NextInPort(r: Reading, c: char) returns (next: Reading)
    requires Good(r) && r.InPort? && Step(ParserOf(r), c).status.Going?
    ensures Follows(r, c, next)
  {
    hide Follows, Step, ParserOf, Good;
    Accepted(r, c);
    if c == '/' {
      PortEnds(r.start, r.credentials, r.host, r.digits);
      next := PastAuthority(r.start, r.credentials, r.host, Some(r.digits));
    } else {
      PortGrows(r.start, r.credentials, r.host, r.digits, c);
      next := InPort(r.start, r.credentials, r.host, r.digits + [c]);
    }
  }

  lemma NextInRest(r: Reading, c: char) returns (next: Reading)
    requires Good(r) && r.InRest?
    ensures Follows(r, c, next)
  {
    hide Follows, GoodParts;
    var start, u := r.start, r.u;
    if u.fragment.Some? {
      FragmentGrows(start, u, c);
      next := InRest(start, u.(fragment := Some(u.fragment.value + [c])));
    } else if c == '#' {
      FragmentBegins(start, u);
      next := InRest(start, u.(fragment := Some("")));
    } else if u.query.Some? {
      QueryGrows(start, u, c);
      next := InRest(start, u.(query := Some(u.query.value + [c])));
    } else if c == '?' {
      QueryBegins(start, u);
      next := InRest(start, u.(query := Some("")));
    } else {
      PathGrows(start, u, c);
      next := InRest(start, u.(path := u.path + [c]));
    }
  }

  // ----- one character less -----

  /** A component, and what it was before its last character. */
  lemma LastApart(s: string) returns (head: string, c: char)
    requires s != ""
    ensures s == head + [c] && |head| < |s|
    ensures forall i :: 0 <= i < |head| ==> head[i] == s[i]
    ensures c == s[|s| - 1]
  {
    head, c := s[..|s| - 1], s[|s| - 1];
  }

  lemma BeforeScheme(r: Reading) returns (before: Reading, c: char)
    requires Good(r) && (r.InScheme? || r.AfterColon? || r.AfterSlash?) && r != InScheme("")
    ensures Good(before) && Follows(before, c, r)
  {
    hide Follows, IsSchemeChar;
    match r {
      case InScheme(scheme) =>
        var head;
        head, c := LastApart(scheme);
        SchemeGrows(head, c);
        before := InScheme(head);
      case AfterColon(scheme) =>
        SchemeEnds(scheme);
        before, c := InScheme(scheme), ':';
      case AfterSlash(scheme) =>
        SchemeEnds(scheme);
        before, c := AfterColon(scheme), '/';
    }
  }

  lemma BeforeName(r: Reading) returns (before: Reading, c: char)
    requires Good(r) && r.InName?
    ensures Good(before) && Follows(before, c, r)
  {
    hide Follows, IsScheme, IsHostChar, IsAlnum;
    var start, name := r.start, r.name;
    if name == "" {
      SchemeEnds(start.scheme);
      assert r == InName(Start(start.scheme, true), "");
      before, c := AfterSlash(start.scheme), '/';
    } else if |name| == 1 && !start.slashes {
      BareName(start.scheme, name[0]);
      assert name == [name[0]] && r == InName(Start(start.scheme, false), [name[0]]);
      before, c := AfterColon(start.scheme), name[0];
    } else {
      var head;
      head, c := LastApart(name);
      NameGrows(start, head, c);
      before := InName(start, head);
    }
  }

  lemma BeforeDigits(r: Reading) returns (before: Reading, c: char)
    requires Good(r) && r.InDigits?
    ensures Good(before) && Follows(before, c, r)
  {
    hide Follows, IsHost, Begins, IsDigit;
    if r.digits == "" {
      NameColon(r.start, r.name);
      before, c := InName(r.start, r.name), ':';
    } else {
      var head;
      head, c := LastApart(r.digits);
      DigitsGrow(r.start, r.name, head, c);
      before := InDigits(r.start, r.name, head);
    }
  }

  lemma BeforePassword(r: Reading) returns (before: Reading, c: char)
    requires Good(r) && r.InPassword?
    ensures Good(before) && Follows(before, c, r)
  {
    hide Follows, IsHost, Begins, IsDigit, IsPasswordChar;
    var head;
    head, c := LastApart(r.password);
    if OnlyDigits(head) {
      DigitsPassword(r.start, r.name, head, c);
      before := InDigits(r.start, r.name, head);
    } else {
      PasswordGrows(r.start, r.name, head, c);
      before := InPassword(r.start, r.name, head);
    }
  }

  lemma BeforeHost(r: Reading) returns (before: Reading, c: char)
    requires Good(r) && (r.InHost? || r.InBracket?)
    ensures Good(before) && Follows(before, c, r)
  {
    hide Follows, Begins, IsHostChar, IsPassword, OnlyDigits;
    if r.InBracket? {
      HostBracket(r.start, r.credentials);
      before, c := InHost(r.start, r.credentials, ""), '[';
    } else if r.host != "" {
      var head;
      head, c := LastApart(r.host);
      HostGrows(r.start, r.credentials, head, c);
      before := InHost(r.start, r.credentials, head);
    } else {
      c := '@';
      match r.credentials {
        case User(name) =>
          NameAt(r.start, name);
          before := InName(r.start, name);
        case UserAndPassword(name, password) =>
          PasswordAt(r.start, name, password);
          before := InPassword(r.start, name, password);
      }
    }
  }

  lemma BeforePort(r: Reading) returns (before: Reading, c: char)
    requires Good(r) && r.InPort?
    ensures Good(before) && Follows(before, c, r)
  {
    hide Follows, IsHost, Begins, GoodCredentials, IsDigit;
    if r.digits == "" {
      HostColon(r.start, r.credentials, r.host);
      before, c := InHost(r.start, r.credentials, r.host), ':';
    } else {
      var head;
      head, c := LastApart(r.digits);
      PortGrows(r.start, r.credentials, r.host, head, c);
      before := InPort(r.start, r.credentials, r.host, head);
    }
  }

  lemma BeforeSlash(r: Reading) returns (before: Reading)
    requires Good(r) && r.InRest? && r.u.path == "" && r.u.query.None? && r.u.fragment.None?
    ensures Good(before) && Follows(before, '/', r)
  {
    var start, u := r.start, r.u;
    assert r == PastAuthority(start, u.credentials, u.host, u.port);
    hide Follows, Begins, GoodCredentials, IsHost, OnlyDigits;
    match (u.credentials.NoCredentials?, u.port) {
      case (true, None) =>
        before := InName(start, u.host);
        NameEnds(start, u.host);
      case (true, Some(digits)) =>
        before := InDigits(start, u.host, digits);
        DigitsEnd(start, u.host, digits);
      case (false, None) =>
        before := InHost(start, u.credentials, u.host);
        HostEnds(start, u.credentials, u.host);
      case (false, Some(digits)) =>
        before := InPort(start, u.credentials, u.host, digits);
        PortEnds(start, u.credentials, u.host, digits);
    }
  }

  lemma BeforeRest(r: Reading) returns (before: Reading, c: char)
    requires Good(r) && r.InRest?
    ensures Good(before) && Follows(before, c, r)
  {
    hide Follows, Begins, GoodCredentials, IsHost, OnlyDigits;
    var start, u := r.start, r.u;
    if u.fragment.Some? {
      before, c := BeforeFragment(r);
    } else if u.query.Some? {
      before, c := BeforeQuery(r);
    } else if u.path != "" {
      var head := u.path[..|u.path| - 1];
      c := u.path[|u.path| - 1];
      assert u.path == head + [c];
      var v := u.(path := head);
      PathGrows(start, v, c);
      assert v.(path := v.path + [c]) == u;
      before := InRest(start, v);
    } else {
      before := BeforeSlash(r);
      c := '/';
    }
  }

  lemma BeforeFragment(r: Reading) returns (before: Reading, c: char)
    requires Good(r) && r.InRest? && r.u.fragment.Some?
    ensures Good(before) && Follows(before, c, r)
  {
    hide Follows, Begins, GoodCredentials, IsHost, OnlyDigits, IsPath;
    var start, u, f := r.start, r.u, r.u.fragment.value;
    if f == "" {
      var v := u.(fragment := None);
      c := '#';
      FragmentBegins(start, v);
      assert v.(fragment := Some("")) == u;
      before := InRest(start, v);
    } else {
      var v := u.(fragment := Some(f[..|f| - 1]));
      c := f[|f| - 1];
      FragmentGrows(start, v, c);
      assert f == f[..|f| - 1] + [c] && v.(fragment := Some(v.fragment.value + [c])) == u;
      before := InRest(start, v);
    }
  }

  lemma BeforeQuery(r: Reading) returns (before: Reading, c: char)
    requires Good(r) && r.InRest? && r.u.fragment.None? && r.u.query.Some?
    ensures Good(before) && Follows(before, c, r)
  {
    hide Follows, Begins, GoodCredentials, IsHost, OnlyDigits, IsPath;
    var start, u, q := r.start, r.u, r.u.query.value;
    if q == "" {
      var v := u.(query := None);
      c := '?';
      QueryBegins(start, v);
      assert v.(query := Some("")) == u;
      before := InRest(start, v);
    } else {
      var v := u.(query := Some(q[..|q| - 1]));
      c := q[|q| - 1];
      QueryGrows(start, v, c);
      assert q == q[..|q| - 1] + [c] && v.(query := Some(v.query.value + [c])) == u;
      before := InRest(start, v);
    }
  }

  // ----- every text -----

  lemma NextReading(r: Reading, c: char) returns (next: Reading)
    requires Good(r) && Step(ParserOf(r), c).status.Going?
    ensures Follows(r, c, next)
  {
    hide Good, Follows, Step;
    if r.InScheme? || r.AfterColon? || r.AfterSlash? {
      next := NextInScheme(r, c);
    } else if r.InName? {
      next := NextInName(r, c);
    } else if r.InDigits? {
      next := NextInDigits(r, c);
    } else if r.InPassword? {
      next := NextInPassword(r, c);
    } else if r.InHost? {
      next := NextInHost(r, c);
    } else if r.InPort? {
      next := NextInPort(r, c);
    } else if r.InRest? {
      next := NextInRest(r, c);
    } else {
      Accepted(r, c);
    }
  }

  lemma Before(r: Reading) returns (before: Reading, c: char)
    requires Good(r) && r != InScheme("")
    ensures Good(before) && Follows(before, c, r)
  {
    hide Good, Follows;
    if r.InScheme? || r.AfterColon? || r.AfterSlash? {
      before, c := BeforeScheme(r);
    } else if r.InName? {
      before, c := BeforeName(r);
    } else if r.InDigits? {
      before, c := BeforeDigits(r);
    } else if r.InPassword? {
      before, c := BeforePassword(r);
    } else if r.InHost? || r.InBracket? {
      before, c := BeforeHost(r);
    } else if r.InPort? {
      before, c := BeforePort(r);
    } else {
      before, c := BeforeRest(r);
    }
  }

  /** Every text that the parser survives is the text of a reading. */
  lemma {:induction false} ReadingOf(s: string) returns (r: Reading)
    requires Run(START, s).status.Going?
    ensures Good(r) && TextOf(r) == s && ParserOf(r) == Run(START, s)
    decreases |s|
  {
    if s == "" {
      r := InScheme("");
    } else {
      var a, c := s[..|s| - 1], s[|s| - 1];
      assert s == a + [c];
      RunConcat(START, a, [c]);
      var p := Run(START, a);
      if !p.status.Going? {
        StaysStopped(p, [c]);
      }
      RunOne(p, c);
      hide Good, ParserOf, TextOf, Step, Run;
      var before := ReadingOf(a);
      r := NextReading(before, c);
      FollowsFacts(before, c, r);
    }
  }

  lemma FollowsFacts(r: Reading, c: char, next: Reading)
    requires Follows(r, c, next)
    ensures Good(next) && TextOf(next) == TextOf(r) + [c] && ParserOf(next) == Step(ParserOf(r), c)
  {
  }

  lemma StaysStopped(p: Parser, s: string)
    requires !p.status.Going?
    ensures Run(p, s) == p
  {
  }

  lemma GoingOn(r: Reading)
    ensures ParserOf(r).status.Going?
  {
  }

  /** Every reading is what the parser makes of its text. */
  lemma {:induction false} ReadingRead(r: Reading)
    requires Good(r)
    ensures Run(START, TextOf(r)) == ParserOf(r)
    decreases |TextOf(r)|
  {
    if r != InScheme("") {
      hide Good, ParserOf, TextOf, Step, Run;
      var before, c := Before(r);
      FollowsFacts(before, c, r);
      ReadingRead(before);
      GoingOn(before);
      RunOne(ParserOf(before), c);
      RunThen(START, TextOf(before), ParserOf(before), [c], ParserOf(r));
    }
  }

  /** The text ends in the digits of a port, or of what could be one: the parser then fails its own assertion. */
  predicate EndsInDigits(r: Reading) {
    (r.InDigits? || r.InPort?) && r.digits != ""
  }

  /** The URL of a text that ends before its path: a name that no at sign has followed is the host. */
  function UrlAt(r: Reading): Url {
    match r
    case InRest(_, u) => UrlFound(u)
    case InName(start, name) => SoFar(start, NoCredentials).(hostname := name)
    case InDigits(start, name, _) => SoFar(start, NoCredentials).(hostname := name)
    case _ => ParserOf(r).url
  }

  /** A text is valid with this URL if and only if it is the text of a reading with this URL that does not end in
      digits: of parts with a path, or cut off before it. */
  lemma Language(s: string, url: Url)
    ensures Parse(s) == Parsed(true, url)
            <==> exists r :: Good(r) && !EndsInDigits(r) && s == TextOf(r) && url == UrlAt(r)
  {
    hide Good, TextOf, Run;
    if Parse(s) == Parsed(true, url) {
      assert Run(START, s).status.Going?;
      var r := ReadingOf(s);
      ResultOf(r);
      assert Good(r) && !EndsInDigits(r) && s == TextOf(r) && url == UrlAt(r);
    }
    if exists r :: Good(r) && !EndsInDigits(r) && s == TextOf(r) && url == UrlAt(r) {
      var r :| Good(r) && !EndsInDigits(r) && s == TextOf(r) && url == UrlAt(r);
      ReadingRead(r);
      ResultOf(r);
    }
  }

  lemma ResultOf(r: Reading)
    ensures Result(ParserOf(r)) == if EndsInDigits(r) then Stopped else Parsed(true, UrlAt(r))
  {
  }
}
