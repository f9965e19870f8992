// parseWsUrl and the effective URL of the fallback branch (src/CurlTransport.cpp).
module Url {
  import opened Prelude
  import Decimal

  datatype ParsedUrl = ParsedUrl(host: string, path: string, port: int, secure: bool)

  /** std::string_view::rfind: the last `c`, or |s| when there is none. */
  function FindLast(s: string, c: char): (i: nat)
    ensures i <= |s| && (i < |s| ==> s[i] == c) && (i == |s| <==> c !in s)
    ensures forall j :: i < j < |s| ==> s[j] != c
  {
    if c !in s then |s|
    else if s[|s| - 1] == c then |s| - 1
    else FindLast(s[..|s| - 1], c)
  }

  /** What follows the scheme, and whether the scheme is a secure one. */
  function Scheme(url: string): (r: Option<(string, bool)>) {
    if "wss://" <= url then Some((url[6..], true))
    else if "https://" <= url then Some((url[8..], true))
    else if "ws://" <= url then Some((url[5..], false))
    else if "http://" <= url then Some((url[7..], false))
    else None
  }

  function Authority(s: string): (r: string) { s[..Find(s, '/')] }

  /** The text between scheme and path splits at its last colon, unless it holds a
      `]`; an unreadable port or an empty host refuses the URL. */
  function SplitAuthority(hostPort: string, path: string, secure: bool): (r: Option<ParsedUrl>) {
    var colon := FindLast(hostPort, ':');
    if colon < |hostPort| && ']' !in hostPort then
      var port := Decimal.Stoi(hostPort[colon + 1..]);
      if port.None? || colon == 0 then None else Some(ParsedUrl(hostPort[..colon], path, port.value, secure))
    else if hostPort == "" then None
    else Some(ParsedUrl(hostPort, path, if secure then 443 else 80, secure))
  }

  function ParseWsUrl(url: string): (r: Option<ParsedUrl>) {
    var scheme := Scheme(url);
    if scheme.None? then None
    else
      var s := scheme.value.0;
      var slash := Find(s, '/');
      SplitAuthority(s[..slash], if slash < |s| then s[slash..] else "/", scheme.value.1)
  }

  /** The URL handed to libcurl. */
  function EffectiveUrl(u: ParsedUrl): (url: string) {
    (if u.secure then "https://" else "http://") + u.host + ":" + Decimal.PrintInt(u.port) + u.path
  }

  lemma {:induction false} FindLastOf(a: string, c: char, b: string)
    requires c !in b
    ensures FindLast(a + [c] + b, c) == |a|
    decreases |b|
  {
    var s := a + [c] + b;
    assert s[|a|] == c;
    if b == "" {
      assert s[|s| - 1] == c;
    } else {
      var k := |b| - 1;
      assert s[|s| - 1] == b[k];
      assert s[..|s| - 1] == a + [c] + b[..k];
      FindLastOf(a, c, b[..k]);
    }
  }

  lemma AroundColon(a: string, c: char, b: string)
    ensures (a + [c] + b)[..|a|] == a && (a + [c] + b)[|a| + 1..] == b
  {
  }

  lemma PortText(n: int)
    ensures ':' !in Decimal.PrintInt(n) && ']' !in Decimal.PrintInt(n) && '/' !in Decimal.PrintInt(n)
  {
  }

  lemma EffectiveScheme(u: ParsedUrl)
    ensures Scheme(EffectiveUrl(u)) == Some((u.host + ":" + Decimal.PrintInt(u.port) + u.path, u.secure))
  {
    var rest := u.host + ":" + Decimal.PrintInt(u.port) + u.path;
    if u.secure {
      assert EffectiveUrl(u) == "https://" + rest;
      assert ("https://" + rest)[0] == 'h' && ("https://" + rest)[..8] == "https://";
    } else {
      assert EffectiveUrl(u) == "http://" + rest;
      assert ("http://" + rest)[0] == 'h' && ("http://" + rest)[4] == ':' && ("http://" + rest)[..7] == "http://";
    }
  }

  /** The URL for libcurl names http or https, never ws or wss. */
  lemma EffectiveIsHttp(u: ParsedUrl)
    ensures if u.secure then "https://" <= EffectiveUrl(u) else "http://" <= EffectiveUrl(u)
    ensures EffectiveUrl(u)[if u.secure then 8 else 7..] == u.host + ":" + Decimal.PrintInt(u.port) + u.path
  {
    EffectiveScheme(u);
    assert EffectiveUrl(u)[0] == 'h';
  }

  /** What every accepted URL parses to. */
  lemma Accepted(url: string)
    requires ParseWsUrl(url).Some?
    ensures var u := ParseWsUrl(url).value;
      && u.host != "" && '/' !in u.host && u.path != "" && u.path[0] == '/'
      && -0x8000_0000 <= u.port < 0x8000_0000
      && (']' in u.host <==> ']' in Authority(Scheme(url).value.0))
  {
  }

  lemma AuthorityText(host: string, port: int)
    requires '/' !in host
    ensures '/' !in host + ":" + Decimal.PrintInt(port)
    ensures ']' in host + ":" + Decimal.PrintInt(port) <==> ']' in host
  {
    PortText(port);
  }

  lemma AtSlash(a: string, path: string)
    requires '/' !in a && path != "" && path[0] == '/'
    ensures Find(a + path, '/') == |a| && (a + path)[..|a|] == a && (a + path)[|a|..] == path
  {
    var s := a + path;
    assert s[|a|] == '/';
    assert forall j :: 0 <= j < |a| ==> s[j] == a[j];
  }

  /** Re-parsing the effective URL splits host and port where they were joined. */
  lemma Reparse(u: ParsedUrl)
    requires '/' !in u.host && u.path != "" && u.path[0] == '/'
    ensures ParseWsUrl(EffectiveUrl(u)) == SplitAuthority(u.host + ":" + Decimal.PrintInt(u.port), u.path, u.secure)
  {
    var hostPort := u.host + ":" + Decimal.PrintInt(u.port);
    EffectiveScheme(u);
    AuthorityText(u.host, u.port);
    AtSlash(hostPort, u.path);
  }

  lemma Rejoined(u: ParsedUrl)
    requires u.host != "" && '/' !in u.host && -0x8000_0000 <= u.port < 0x8000_0000
    ensures SplitAuthority(u.host + ":" + Decimal.PrintInt(u.port), u.path, u.secure) == Some(u) <==> ']' !in u.host
  {
    var port := Decimal.PrintInt(u.port);
    PortText(u.port);
    AuthorityText(u.host, u.port);
    FindLastOf(u.host, ':', port);
    AroundColon(u.host, ':', port);
    Decimal.StoiOfPrintInt(u.port);
    assert u.host + ":" + port == u.host + [':'] + port;
    assert |u.host + ":" + port| > |u.host|;
  }

  /** Whatever URL is accepted, the rebuilt one parses to the same host, port, path
      and secure flag exactly when the authority holds no `]`. */
  lemma EffectiveUrlReparses(url: string)
    requires ParseWsUrl(url).Some?
    ensures ParseWsUrl(EffectiveUrl(ParseWsUrl(url).value)) == ParseWsUrl(url)
       <==> ']' !in Authority(Scheme(url).value.0)
  {
    Accepted(url);
    Reparse(ParseWsUrl(url).value);
    Rejoined(ParseWsUrl(url).value);
  }

  // ---- The schemes

  /** wss and https are the secure schemes, ws and http the others. */
  predicate SchemeIs(scheme: string, secure: bool) {
    if secure then scheme == "wss://" || scheme == "https://" else scheme == "ws://" || scheme == "http://"
  }

  lemma SecureScheme(rest: string)
    ensures Scheme("wss://" + rest) == Some((rest, true)) && Scheme("https://" + rest) == Some((rest, true))
  {
    assert ("wss://" + rest)[..6] == "wss://" && ("wss://" + rest)[6..] == rest;
    assert ("https://" + rest)[0] == 'h' && ("https://" + rest)[..8] == "https://" && ("https://" + rest)[8..] == rest;
  }

  lemma WsScheme(rest: string)
    ensures Scheme("ws://" + rest) == Some((rest, false))
  {
    var url := "ws://" + rest;
    assert url[0] == 'w' && url[2] == ':' && "wss://"[2] == 's' && "https://"[0] == 'h';
    assert url[..5] == "ws://" && url[5..] == rest;
  }

  lemma HttpScheme(rest: string)
    ensures Scheme("http://" + rest) == Some((rest, false))
  {
    var url := "http://" + rest;
    assert url[0] == 'h' && url[4] == ':' && "https://"[4] == 's' && "wss://"[0] == 'w' && "ws://"[0] == 'w';
    assert url[..7] == "http://" && url[7..] == rest;
  }

  lemma AnyScheme(scheme: string, secure: bool, rest: string)
    requires SchemeIs(scheme, secure)
    ensures Scheme(scheme + rest) == Some((rest, secure))
  {
    SecureScheme(rest);
    WsScheme(rest);
    HttpScheme(rest);
  }

  /** A plain host gets the default port of its scheme, and the path "/" when it has none. */
  lemma PlainHost(scheme: string, secure: bool, host: string, path: string)
    requires SchemeIs(scheme, secure) && host != "" && '/' !in host && ':' !in host
    requires path == "" || path[0] == '/'
    ensures ParseWsUrl(scheme + (host + path))
         == Some(ParsedUrl(host, if path == "" then "/" else path, if secure then 443 else 80, secure))
  {
    AnyScheme(scheme, secure, host + path);
    if path == "" {
      assert host + path == host && Find(host, '/') == |host| && host[..|host|] == host;
    } else {
      AtSlash(host, path);
    }
  }

  /** A port behind the host is read. */
  lemma HostAndPort(scheme: string, secure: bool, host: string, port: int, path: string)
    requires SchemeIs(scheme, secure) && host != "" && '/' !in host && ']' !in host
    requires path != "" && path[0] == '/' && -0x8000_0000 <= port < 0x8000_0000
    ensures ParseWsUrl(scheme + (host + ":" + Decimal.PrintInt(port) + path))
         == Some(ParsedUrl(host, path, port, secure))
  {
    var u := ParsedUrl(host, path, port, secure);
    AnyScheme(scheme, secure, host + ":" + Decimal.PrintInt(port) + path);
    AuthorityText(host, port);
    AtSlash(host + ":" + Decimal.PrintInt(port), path);
    Rejoined(u);
  }

  /** Any other scheme is refused. */
  lemma OtherSchemeRefused(url: string)
    ensures ParseWsUrl(url).Some? ==> exists scheme, secure ::
      SchemeIs(scheme, secure) && scheme <= url && ParseWsUrl(url).value.secure == secure
  {
    if ParseWsUrl(url).Some? {
      var secure := ParseWsUrl(url).value.secure;
      assert SchemeIs("wss://", true) && SchemeIs("https://", true);
      assert SchemeIs("ws://", false) && SchemeIs("http://", false);
    }
  }

  /** With a `]` the default port is glued to the host, as for the URL of the IPv6
      loopback address. */
  lemma BracketsGlueThePort(host: string)
    requires ']' in host && '/' !in host
    ensures var u := ParsedUrl(host, "/", 80, false);
      && ParseWsUrl("ws://" + (host + "/")) == Some(u)
      && ParseWsUrl(EffectiveUrl(u)) == Some(u.(host := host + ":" + Decimal.PrintInt(80)))
  {
    WsScheme(host + "/");
    AtSlash(host, "/");
    AuthorityText(host, 80);
    Reparse(ParsedUrl(host, "/", 80, false));
  }

  lemma LoopbackDoesNotComeBack()
    ensures var u := ParsedUrl("[::1]", "/", 80, false);
      ParseWsUrl("ws://" + ("[::1]" + "/")) == Some(u) && ParseWsUrl(EffectiveUrl(u)) != Some(u)
  {
    assert "[::1]"[4] == ']';
    BracketsGlueThePort("[::1]");
    assert |"[::1]" + ":" + Decimal.PrintInt(80)| > |"[::1]"|;
  }
}
