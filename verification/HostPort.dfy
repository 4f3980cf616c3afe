/** Splitting `host:port` and `[host]:port` targets (src/target.rs). */
module HostPort {
  import opened Net
  import opened Text

  datatype TargetError = MissingBracket | MissingPortAfterBracket | MissingColon | EmptyHost | InvalidPort | ZeroPort

  datatype HostAndPort = HostAndPort(host: string, port: nat)

  /** Unlike the listen-port parser this one does not trim. */
  function ParsePort(portPart: string): (r: Result<nat, TargetError>)
    ensures r.Ok? ==> 1 <= r.value <= 65535
  {
    match ParseU16(portPart)
    case None => Err(InvalidPort)
    case Some(port) => if port == 0 then Err(ZeroPort) else Ok(port)
  }

  function WithPort(host: string, portPart: string): Result<HostAndPort, TargetError> {
    match ParsePort(portPart)
    case Err(e) => Err(e)
    case Ok(port) => Ok(HostAndPort(host, port))
  }

  function SplitHostPort(raw: string): Result<HostAndPort, TargetError> {
    if raw != "" && raw[0] == '[' then
      var rest := raw[1..];
      match FirstIndex(rest, ']')
      case None => Err(MissingBracket)
      case Some(end) =>
        var after := rest[end + 1..];
        if after == "" || after[0] != ':' then Err(MissingPortAfterBracket)
        else WithPort(rest[..end], after[1..])
    else
      match LastIndex(raw, ':')
      case None => Err(MissingColon)
      case Some(i) => if i == 0 then Err(EmptyHost) else WithPort(raw[..i], raw[i + 1..])
  }

  /** `raw` is `[host]:portPart`. */
  predicate Bracketed(raw: string, host: string, portPart: string) {
    raw == "[" + host + "]:" + portPart && ']' !in host
  }

  /** `raw` is `host:portPart` with the last colon as separator. */
  predicate Plain(raw: string, host: string, portPart: string) {
    raw == host + ":" + portPart && ':' !in portPart && host != "" && host[0] != '['
  }

  lemma BracketedSplit(raw: string, host: string, portPart: string)
    requires Bracketed(raw, host, portPart)
    ensures SplitHostPort(raw) == WithPort(host, portPart)
  {
    var rest := raw[1..];
    assert rest == host + "]" + (":" + portPart);
    FirstIndexAfter(host, ']', ":" + portPart);
    assert rest[..|host|] == host && rest[|host| + 1..] == ":" + portPart;
    assert (":" + portPart)[1..] == portPart;
  }

  lemma PlainSplit(raw: string, host: string, portPart: string)
    requires Plain(raw, host, portPart)
    ensures SplitHostPort(raw) == WithPort(host, portPart)
  {
    assert raw[0] == host[0];
    LastIndexBefore(host, ':', portPart);
    assert raw[..|host|] == host && raw[|host| + 1..] == portPart;
  }

  lemma CutAtFirst(s: string, c: char)
    requires s != "" && s[0] == c
    ensures s == [c] + s[1..]
  {
  }

  lemma CutAt(s: string, i: nat)
    requires i < |s|
    ensures s == s[..i] + [s[i]] + s[i + 1..]
  {
  }

  lemma BracketText(host: string, portPart: string)
    ensures "[" + (host + "]" + (":" + portPart)) == "[" + host + "]:" + portPart
  {
  }

  /** The split succeeds, or fails only because of the port. */
  predicate ReachesPort(raw: string) {
    raw != "" && match SplitHostPort(raw)
      case Ok(_) => true
      case Err(e) => e in {InvalidPort, ZeroPort}
  }

  /** What an accepted bracketed text is made of. */
  lemma BracketedParts(raw: string) returns (end: nat)
    requires ReachesPort(raw) && raw[0] == '['
    ensures var rest := raw[1..];
            && end < |rest| && rest[end] == ']' && ']' !in rest[..end]
            && rest[end + 1..] != "" && rest[end + 1..][0] == ':'
            && SplitHostPort(raw) == WithPort(rest[..end], rest[end + 1..][1..])
  {
    end := FirstIndex(raw[1..], ']').value;
  }

  lemma BracketedForm(raw: string) returns (host: string, portPart: string)
    requires ReachesPort(raw) && raw[0] == '['
    ensures Bracketed(raw, host, portPart) && SplitHostPort(raw) == WithPort(host, portPart)
  {
    var end := BracketedParts(raw);
    var rest := raw[1..];
    var after := rest[end + 1..];
    host, portPart := rest[..end], after[1..];
    CutAtFirst(raw, '[');
    CutAt(rest, end);
    CutAtFirst(after, ':');
    BracketText(host, portPart);
  }

  lemma PlainForm(raw: string) returns (host: string, portPart: string)
    requires ReachesPort(raw) && raw[0] != '['
    ensures Plain(raw, host, portPart) && SplitHostPort(raw) == WithPort(host, portPart)
  {
    var i := LastIndex(raw, ':').value;
    host, portPart := raw[..i], raw[i + 1..];
    assert raw == host + ":" + portPart;
  }

  /** A split that gets as far as the port comes from one of the two forms. */
  lemma SplitForms(raw: string) returns (host: string, portPart: string)
    requires ReachesPort(raw)
    ensures Bracketed(raw, host, portPart) || Plain(raw, host, portPart)
    ensures SplitHostPort(raw) == WithPort(host, portPart)
  {
    if raw[0] == '[' {
      host, portPart := BracketedForm(raw);
    } else {
      host, portPart := PlainForm(raw);
    }
  }

  /** The split succeeds with (host, port) iff `raw` is one of the two forms and its last part denotes the port. */
  lemma SplitIff(raw: string, host: string, port: nat)
    ensures SplitHostPort(raw) == Ok(HostAndPort(host, port))
            <==> exists portPart :: (Bracketed(raw, host, portPart) || Plain(raw, host, portPart))
                                    && ParsePort(portPart) == Ok(port)
  {
    if SplitHostPort(raw) == Ok(HostAndPort(host, port)) {
      var h, portPart := SplitForms(raw);
      assert h == host && ParsePort(portPart) == Ok(port);
    }
    if portPart :| (Bracketed(raw, host, portPart) || Plain(raw, host, portPart)) && ParsePort(portPart) == Ok(port) {
      if Bracketed(raw, host, portPart) {
        BracketedSplit(raw, host, portPart);
      } else {
        PlainSplit(raw, host, portPart);
      }
    }
  }

  /** A port error is that of the last part of one of the two forms. */
  lemma PortErrorIff(raw: string, e: TargetError)
    requires e in {InvalidPort, ZeroPort}
    ensures SplitHostPort(raw) == Err(e)
            <==> exists host, portPart :: (Bracketed(raw, host, portPart) || Plain(raw, host, portPart))
                                          && ParsePort(portPart) == Err(e)
  {
    if SplitHostPort(raw) == Err(e) {
      var host, portPart := SplitForms(raw);
      assert ParsePort(portPart) == Err(e);
    }
    if host, portPart :|
      (Bracketed(raw, host, portPart) || Plain(raw, host, portPart)) && ParsePort(portPart) == Err(e)
    {
      if Bracketed(raw, host, portPart) {
        BracketedSplit(raw, host, portPart);
      } else {
        PlainSplit(raw, host, portPart);
      }
    }
  }

  lemma DecimalPort(port: nat)
    requires 1 <= port <= U16_MAX
    ensures ParsePort(Decimal(port)) == Ok(port) && ':' !in Decimal(port)
  {
    ParseOfDecimal(port);
  }

  /** Writing a host and a port and splitting them again gives them back, in both notations. */
  lemma SplitRoundTrip(host: string, port: nat)
    requires 1 <= port <= U16_MAX
    ensures ']' !in host ==> SplitHostPort("[" + host + "]:" + Decimal(port)) == Ok(HostAndPort(host, port))
    ensures host != "" && host[0] != '[' ==> SplitHostPort(host + ":" + Decimal(port)) == Ok(HostAndPort(host, port))
  {
    DecimalPort(port);
    if ']' !in host {
      BracketedSplit("[" + host + "]:" + Decimal(port), host, Decimal(port));
    }
    if host != "" && host[0] != '[' {
      PlainSplit(host + ":" + Decimal(port), host, Decimal(port));
    }
  }

  /** The port is a 16-bit number however many leading zeros it is written with. */
  lemma PortIff(portPart: string, port: nat)
    ensures ParsePort(portPart) == Ok(port) <==> Denotes(portPart, port) && 1 <= port <= 65535
    ensures ParsePort(portPart) == Err(ZeroPort) <==> Denotes(portPart, 0)
    ensures ParsePort(portPart) == Err(InvalidPort) <==> forall n | Denotes(portPart, n) :: n > 65535
  {
    ParseU16Iff(portPart, port);
    ParseU16Iff(portPart, 0);
    if ParseU16(portPart).Some? {
      ParseU16Iff(portPart, ParseU16(portPart).value);
    } else {
      forall n | Denotes(portPart, n)
        ensures n > 65535
      {
        ParseU16Iff(portPart, n);
      }
    }
  }

  // ----- which error -----

  /** A bracketed host without its closing bracket. */
  lemma MissingBracketIff(raw: string)
    ensures SplitHostPort(raw) == Err(MissingBracket) <==> raw != "" && raw[0] == '[' && ']' !in raw
  {
    if raw != "" && raw[0] == '[' {
      assert raw == [raw[0]] + raw[1..];
    }
  }

  /** `raw` is `[host]` and something else than `:port`. */
  predicate Portless(raw: string, host: string, after: string) {
    raw == "[" + host + "]" + after && ']' !in host && (after == "" || after[0] != ':')
  }

  lemma PortlessSplit(raw: string, host: string, after: string)
    requires Portless(raw, host, after)
    ensures SplitHostPort(raw) == Err(MissingPortAfterBracket)
  {
    var rest := raw[1..];
    assert rest == host + "]" + after;
    FirstIndexAfter(host, ']', after);
    assert rest[|host| + 1..] == after;
  }

  lemma MissingPortIff(raw: string)
    ensures SplitHostPort(raw) == Err(MissingPortAfterBracket) <==> exists host, after :: Portless(raw, host, after)
  {
    if SplitHostPort(raw) == Err(MissingPortAfterBracket) {
      var rest := raw[1..];
      var end := FirstIndex(rest, ']').value;
      CutAtFirst(raw, '[');
      CutAt(rest, end);
      assert raw == "[" + rest[..end] + "]" + rest[end + 1..];
      assert Portless(raw, rest[..end], rest[end + 1..]);
    }
    if host, after :| Portless(raw, host, after) {
      PortlessSplit(raw, host, after);
    }
  }

  /** Without brackets: no colon at all, or nothing before the last one. */
  lemma MissingColonIff(raw: string)
    ensures SplitHostPort(raw) == Err(MissingColon) <==> (raw == "" || raw[0] != '[') && ':' !in raw
  {
  }

  lemma EmptyHostIff(raw: string)
    ensures SplitHostPort(raw) == Err(EmptyHost) <==> raw != "" && raw[0] == ':' && ':' !in raw[1..]
  {
    if raw != "" && raw[0] == ':' && ':' !in raw[1..] {
      LastIs(raw, ':', 0);
    }
  }
}
