/** The URL parser as a machine: its local variables and the URL it builds, and one step for each character. */
module UrlMachine {
  import opened Ascii

  datatype Url = Url(
    scheme: string,
    username: string,
    password: string,
    hostname: string,
    port: string,
    path: string,
    query: string,
    fragment: string,
    integerPort: nat)

  const NO_URL := Url("", "", "", "", "", "", "", "", 0)

  datatype State =
    | Scheme | SlashAfterScheme1 | SlashAfterScheme2 | UsernameOrHostname | Password | Hostname | IPV6Hostname
    | PortOrPassword | Port | Path | Query | Fragment

  /** The loop goes on, has found the text invalid, or has called abort. */
  datatype Status = Going | Invalid | Aborted

  datatype Parser = Parser(state: State, status: Status, url: Url, usernameOrHostname: string, portOrPassword: string)

  const START := Parser(Scheme, Going, NO_URL.(path := "/"), "", "")

  predicate IsUnreserved(c: char) {
    IsAlnum(c) || c == '-' || c == '.' || c == '_' || c == '~'
  }

  /** A character of a user name or host. */
  predicate IsHostChar(c: char) {
    IsUnreserved(c) || c == '%'
  }

  predicate IsSchemeChar(c: char) {
    IsAlnum(c) || c == '+' || c == '-' || c == '.'
  }

  predicate IsPasswordChar(c: char) {
    IsAlnum(c) || c == '%'
  }

  function Bad(p: Parser): Parser {
    p.(status := Invalid, url := NO_URL)
  }

  /** Conversion of an int to uint16_t. */
  function ToPort(n: int): (r: nat)
    ensures 0 <= n < 65536 ==> r == n
  {
    n % 65536
  }

  /** The digits read so far are the port. */
  function PortDone(p: Parser): Parser {
    p.(state := Path, portOrPassword := p.url.port,
       url := p.url.(port := p.portOrPassword, integerPort := ToPort(Atoi(p.portOrPassword))))
  }

  function StepScheme(p: Parser, c: char): Parser {
    match p.state
    case Scheme =>
      if IsSchemeChar(c) then p.(url := p.url.(scheme := p.url.scheme + [c]))
      else if c == ':' then p.(state := SlashAfterScheme1)
      else Bad(p)
    case SlashAfterScheme1 =>
      if c == '/' then p.(state := SlashAfterScheme2)
      else if IsAlnum(c) then p.(state := UsernameOrHostname, usernameOrHostname := [c])
      else Bad(p)
    case _ => if c == '/' then p.(state := UsernameOrHostname) else Bad(p)
  }

  function StepAuthority(p: Parser, c: char): Parser {
    match p.state
    case UsernameOrHostname =>
      if IsHostChar(c) then p.(usernameOrHostname := p.usernameOrHostname + [c])
      else if c == ':' then p.(state := PortOrPassword)
      else if c == '@' then
        p.(state := Hostname, usernameOrHostname := p.url.username, url := p.url.(username := p.usernameOrHostname))
      else if c == '/' then
        p.(state := Path, usernameOrHostname := p.url.hostname, url := p.url.(hostname := p.usernameOrHostname))
      else Bad(p)
    case Password =>
      if IsPasswordChar(c) then p.(url := p.url.(password := p.url.password + [c]))
      else if c == '@' then p.(state := Hostname)
      else Bad(p)
    case Hostname =>
      if c == '[' && p.url.hostname == "" then p.(state := IPV6Hostname)
      else if IsHostChar(c) then p.(url := p.url.(hostname := p.url.hostname + [c]))
      else if c == ':' then p.(state := Port)
      else if c == '/' then p.(state := Path)
      else Bad(p)
    case _ => p.(status := Aborted)
  }

  function StepPort(p: Parser, c: char): Parser {
    match p.state
    case PortOrPassword =>
      if IsDigit(c) then p.(portOrPassword := p.portOrPassword + [c])
      else if c == '/' then
        PortDone(p.(usernameOrHostname := p.url.hostname, url := p.url.(hostname := p.usernameOrHostname)))
      else if IsPasswordChar(c) then
        p.(state := Password, usernameOrHostname := p.url.username, portOrPassword := p.url.password,
           url := p.url.(username := p.usernameOrHostname, password := p.portOrPassword + [c]))
      else Bad(p)
    case _ =>
      if IsDigit(c) then p.(portOrPassword := p.portOrPassword + [c])
      else if c == '/' then PortDone(p)
      else Bad(p)
  }

  function StepPath(p: Parser, c: char): Parser {
    match p.state
    case Path =>
      if c == '#' then p.(state := Fragment)
      else if c == '?' then p.(state := Query)
      else p.(url := p.url.(path := p.url.path + [c]))
    case Query =>
      if c == '#' then p.(state := Fragment)
      else if c == '?' then p
      else p.(url := p.url.(query := p.url.query + [c]))
    case _ => p.(url := p.url.(fragment := p.url.fragment + [c]))
  }

  predicate ReadsScheme(state: State) {
    state.Scheme? || state.SlashAfterScheme1? || state.SlashAfterScheme2?
  }

  predicate ReadsAuthority(state: State) {
    state.UsernameOrHostname? || state.Password? || state.Hostname? || state.IPV6Hostname?
  }

  predicate ReadsPort(state: State) {
    state.PortOrPassword? || state.Port?
  }

  function Step(p: Parser, c: char): Parser {
    if ReadsScheme(p.state) then StepScheme(p, c)
    else if ReadsAuthority(p.state) then StepAuthority(p, c)
    else if ReadsPort(p.state) then StepPort(p, c)
    else StepPath(p, c)
  }

  function Run(p: Parser, s: string): Parser
    decreases |s|
  {
    if s == "" || !p.status.Going? then p else Run(Step(p, s[0]), s[1..])
  }

  /** None stands for a failed assertion or a call of abort. */
  datatype Parsed = Stopped | Parsed(valid: bool, url: Url)

  function Result(p: Parser): Parsed {
    if p.status.Aborted? || p.portOrPassword != "" then Stopped
    else if p.usernameOrHostname != "" then Parsed(p.status.Going?, p.url.(hostname := p.usernameOrHostname))
    else Parsed(p.status.Going?, p.url)
  }

  function Parse(s: string): Parsed {
    Result(Run(START, s))
  }

  const HTTP_PORT: nat := 80
  const HTTPS_PORT: nat := 443

  function HttpPort(url: Url): nat {
    if url.port == "" then (if url.scheme == "https" then HTTPS_PORT else HTTP_PORT) else url.integerPort
  }
}
