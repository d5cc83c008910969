/**
  Server addresses on the command line and their normal form `scheme://host[:port]`
  (sections 3.2.2, 3.2.3 and 6.2.3 of RFC 3986), for hosts written in ASCII.
 */
module ServerAddress {
  import opened Wrappers
  import opened PyText
  import opened Json
  import opened JsonProofs

  /** Which lower-case text is an IPv6 address, and which host names this computer. */
  datatype Names = Names(ip6: string -> bool, loopback: string -> bool)

  datatype Error = Empty | ControlCharacters | Invalid | WrongScheme | UserInfo | NoHost | ForeignHost

  /** How the normalization read the address: a scheme it added, a part it dropped. */
  datatype Note = ReadAs(scheme: string) | Ignored(rest: string)

  datatype Address = Address(origin: string, scheme: string, host: string, port: nat, notes: seq<Note>)

  predicate KnownScheme(scheme: string) {
    scheme == "http" || scheme == "https"
  }

  function DefaultPort(scheme: string): nat {
    if scheme == "http" then 80 else 443
  }

  // ---------------------------------------------------------------- text

  /** `partition`: the text before the first `c`, or all of it. */
  function Before(s: string, c: char): (r: string)
    ensures r <= s
  {
    if s == "" || s[0] == c then "" else [s[0]] + Before(s[1..], c)
  }

  /** `partition`: the text after the first `c`, or none. */
  function After(s: string, c: char): (r: string)
    ensures s != "" ==> |r| < |s|
  {
    if s == "" then "" else if s[0] == c then s[1..] else After(s[1..], c)
  }

  /** `rpartition`: the text after the last `c`, or all of it. */
  function AfterLast(s: string, c: char): string
    decreases |s|
  {
    if c in s then AfterLast(After(s, c), c) else s
  }

  predicate Contains(s: string, part: string) {
    part <= s || (s != "" && Contains(s[1..], part))
  }

  function LowerChar(c: char): char {
    if 'A' <= c <= 'Z' then (c as int + 32) as char else c
  }

  function Lower(s: string): string {
    if s == "" then "" else [LowerChar(s[0])] + Lower(s[1..])
  }

  predicate IsAlpha(c: char) {
    'A' <= c <= 'Z' || 'a' <= c <= 'z'
  }

  predicate IsHex(c: char) {
    '0' <= c <= '9' || 'A' <= c <= 'F' || 'a' <= c <= 'f'
  }

  predicate Printable(s: string) {
    forall i :: 0 <= i < |s| ==> s[i] as int >= 33 && s[i] as int != 127
  }

  predicate InAscii(s: string) {
    forall i :: 0 <= i < |s| ==> (s[i] as int) < 128
  }

  // ---------------------------------------------------------------- splitting an address

  /** The parts of an address; `rest` is its path, query and fragment without the leading slash. */
  datatype Parts = Parts(scheme: string, netloc: string, rest: string)

  predicate SchemeText(s: string) {
    s != "" && IsAlpha(s[0]) && forall i :: 0 <= i < |s| ==> IsAlpha(s[i]) || IsDigit(s[i]) || s[i] in "+-."
  }

  predicate EndsNetloc(c: char) {
    c == '/' || c == '?' || c == '#'
  }

  function Netloc(s: string): string {
    if s == "" || EndsNetloc(s[0]) then "" else [s[0]] + Netloc(s[1..])
  }

  /** Hex digits, at least one unless some came before, then a dot and anything behind it. */
  predicate HexThenDot(s: string, some: bool) {
    s != "" && if s[0] == '.' then some && |s| > 1 else IsHex(s[0]) && HexThenDot(s[1..], true)
  }

  /** IPvFuture host text (section 3.2.2 of RFC 3986), with its `v` in lower case. */
  predicate IsFuture(s: string) {
    s != "" && s[0] == 'v' && HexThenDot(s[1..], false)
  }

  /** Host text allowed in brackets: an IPv6 address has a colon and starts with no letter V. */
  predicate Bracketed(names: Names, s: string) {
    if s != "" && s[0] == 'v' then IsFuture(s) else ':' in s && s[0] != 'V' && names.ip6(Lower(s))
  }

  /** The host as written and the port text of a network location; None where brackets do not fit. */
  function HostPort(names: Names, netloc: string): Option<(string, string)> {
    var hostinfo := AfterLast(netloc, '@');
    if ('[' in netloc) != (']' in netloc) then None
    else if '[' in hostinfo then
      var inner := Before(After(hostinfo, '['), ']');
      var behind := After(After(hostinfo, '['), ']');
      if hostinfo[0] != '[' || (behind != "" && behind[0] != ':') || !Bracketed(names, inner) then None
      else Some((inner, After(behind, ':')))
    else if '[' in netloc && !Bracketed(names, Before(hostinfo, ':')) then None
    else Some((Before(hostinfo, ':'), After(hostinfo, ':')))
  }

  function DropSlash(s: string): string {
    if s != "" && s[0] == '/' then s[1..] else s
  }

  /** An empty query or fragment leaves no trace. */
  function Rest(s: string): string {
    var fragment := After(s, '#');
    var query := After(Before(s, '#'), '?');
    DropSlash(Before(Before(s, '#'), '?')) + (if query == "" then "" else "?" + query)
    + (if fragment == "" then "" else "#" + fragment)
  }

  /** `urlsplit`, with the checks it makes of a network location in brackets. */
  function UrlSplit(names: Names, raw: string): Option<Parts> {
    var hasScheme := ':' in raw && SchemeText(Before(raw, ':'));
    var scheme := if hasScheme then Lower(Before(raw, ':')) else "";
    var url := if hasScheme then After(raw, ':') else raw;
    if "//" <= url then
      var netloc := Netloc(url[2..]);
      if HostPort(names, netloc).None? then None
      else Some(Parts(scheme, netloc, Rest(url[2 + NetlocLength(url[2..])..])))
    else Some(Parts(scheme, "", Rest(url)))
  }

  function NetlocLength(s: string): (n: nat)
    ensures n == |Netloc(s)| <= |s|
  {
    if s == "" || EndsNetloc(s[0]) then 0 else 1 + NetlocLength(s[1..])
  }

  /** Lower case, except for the zone of a scoped address. */
  function HostName(written: string): string {
    if written == "" || written[0] == '%' then written else [LowerChar(written[0])] + HostName(written[1..])
  }

  /** No port text is no port; anything but digits up to 65535 is refused. */
  function ReadPort(text: string): Option<Option<nat>> {
    if text == "" then Some(None)
    else if AllDigits(text) && DigitsValue(text, 0) <= 65535 then Some(Some(DigitsValue(text, 0)))
    else None
  }

  /** Host and port text of a network location that was accepted. */
  function Located(names: Names, netloc: string): (string, string) {
    var located := HostPort(names, netloc);
    if located.None? then ("", "") else located.value
  }

  // ---------------------------------------------------------------- the normal form

  function HostText(host: string): string {
    if ':' in host then "[" + host + "]" else host
  }

  function PortText(scheme: string, port: nat): string
  {
    if port == DefaultPort(scheme) then "" else ":" + NatText(port)
  }

  function Origin(scheme: string, host: string, port: nat): string
  {
    scheme + "://" + HostText(host) + PortText(scheme, port)
  }

  function ReadParts(names: Names, parts: Parts, notes: seq<Note>): Result<Address, Error> {
    var written := Located(names, parts.netloc);
    var port := ReadPort(written.1);
    if port.None? then Err(Invalid)
    else if !KnownScheme(parts.scheme) then Err(WrongScheme)
    else if '@' in parts.netloc then Err(UserInfo)
    else if written.0 == "" then Err(NoHost)
    else if !InAscii(parts.netloc) then Err(ForeignHost)
    else if port.value == Some(0) then Err(Invalid)
    else
      var host := HostName(written.0);
      var number := if port.value.Some? then port.value.value else DefaultPort(parts.scheme);
      var dropped := if parts.rest == "" then [] else [Ignored(parts.rest)];
      Ok(Address(Origin(parts.scheme, host, number), parts.scheme, host, number, notes + dropped))
  }

  /** An address with its scheme written out. */
  function ReadAbsolute(names: Names, raw: string, notes: seq<Note>): Result<Address, Error> {
    var split := UrlSplit(names, raw);
    if split.None? then Err(Invalid) else ReadParts(names, split.value, notes)
  }

  /** The scheme of an address that names none: `http` for this computer, `https` for any other. */
  function AssumedScheme(names: Names, raw: string): Option<string> {
    var split := UrlSplit(names, "//" + raw);
    if split.None? then None
    else Some(if names.loopback(HostName(Located(names, split.value.netloc).0)) then "http" else "https")
  }

  function Parse(names: Names, text: string): Result<Address, Error> {
    var raw := Strip(text);
    if raw == "" then Err(Empty)
    else if !Printable(raw) then Err(ControlCharacters)
    else if Contains(raw, "://") then ReadAbsolute(names, raw, [])
    else
      var scheme := AssumedScheme(names, raw);
      if scheme.None? then Err(Invalid)
      else ReadAbsolute(names, scheme.value + "://" + raw, [ReadAs(scheme.value)])
  }

  /** `server_origin`: the origin of an absolute address, None for anything else. */
  function ServerOrigin(names: Names, url: string): Option<string> {
    if Contains(url, "://") && Parse(names, url).Ok? then Some(Parse(names, url).value.origin) else None
  }

  /** The host a client connects to for a configured one: wildcards mean this computer, brackets are dropped. */
  function ConnectHost(host: string): string {
    var named := if host == "" || host == "*" || host == "0.0.0.0" then "127.0.0.1"
                 else if host == "::" then "::1"
                 else host;
    var open := if named != "" && named[0] == '[' then named[1..] else named;
    if open != "" && open[|open| - 1] == ']' then open[..|open| - 1] else open
  }

  /** `build_server_base_url` */
  function BaseUrl(host: string, port: nat): string {
    "http://" + HostText(ConnectHost(host)) + ":" + NatText(port)
  }

  /** Reads one address, collecting what the reading needed. */
  method ParseServerUrl(names: Names, text: string) returns (r: Result<Address, Error>)
    ensures r == Parse(names, text)
  {
    hide UrlSplit, Located, ReadPort, Contains, Strip, HostName, NatText;
    var raw := Strip(text);
    if raw == "" { return Err(Empty); }
    if !Printable(raw) { return Err(ControlCharacters); }
    var notes: seq<Note> := [];
    if !Contains(raw, "://") {
      var assumed := AssumedScheme(names, raw);
      if assumed.None? { return Err(Invalid); }
      notes := [ReadAs(assumed.value)];
      raw := assumed.value + "://" + raw;
    }
    var split := UrlSplit(names, raw);
    if split.None? { return Err(Invalid); }
    var parts := split.value;
    var written := Located(names, parts.netloc);
    var explicitPort := ReadPort(written.1);
    if explicitPort.None? { return Err(Invalid); }
    if !KnownScheme(parts.scheme) { return Err(WrongScheme); }
    if '@' in parts.netloc { return Err(UserInfo); }
    var host := written.0;
    if host == "" { return Err(NoHost); }
    host := HostName(host);
    if !InAscii(parts.netloc) { return Err(ForeignHost); }
    if explicitPort.value == Some(0) { return Err(Invalid); }
    var port := if explicitPort.value.Some? then explicitPort.value.value else DefaultPort(parts.scheme);
    var origin := parts.scheme + "://" + if ':' in host then "[" + host + "]" else host;
    assert origin + "" == origin;
    if port != DefaultPort(parts.scheme) {
      origin := origin + (":" + NatText(port));
    }
    assert origin == Origin(parts.scheme, host, port);
    assert notes + [] == notes;
    if parts.rest != "" {
      notes := notes + [Ignored(parts.rest)];
    }
    r := Ok(Address(origin, parts.scheme, host, port, notes));
  }
}
