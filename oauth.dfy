/**
 * The authorization request of section 4.1.1 of RFC 6749 that
 * `GET /login/microsoft` redirects to, the access token request of section
 * 4.1.3 that the callback sends, and `encodeURIComponent`, which the first
 * uses for its redirect URI and scope.
 */
module OAuthLogin {
  import opened Wrappers
  import opened Users
  import opened Http

  /** The environment variables the login flow reads; None is an unset variable. */
  datatype OAuthConfig = OAuthConfig(
    tenantId: Option<string>,
    clientId: Option<string>,
    clientSecret: Option<string>,
    callbackUrl: Option<string>)

  const Scope := "openid profile email User.Read"

  // ---------------------------------------------------------------------------
  // encodeURIComponent

  /** The characters `encodeURIComponent` leaves alone. */
  predicate Unreserved(c: char) {
    || ('A' <= c <= 'Z') || ('a' <= c <= 'z') || ('0' <= c <= '9')
    || c == '-' || c == '_' || c == '.' || c == '!' || c == '~' || c == '*' || c == '\'' || c == '(' || c == ')'
  }

  /** An upper-case hexadecimal digit. */
  function HexDigit(n: int): (c: char)
    requires 0 <= n < 16
    ensures Unreserved(c)
  {
    if n < 10 then (48 + n) as char else (55 + n) as char
  }

  /** The value of a hexadecimal digit of either case. */
  function HexValue(c: char): (r: Option<int>)
    ensures r.Some? ==> 0 <= r.value < 16
  {
    if '0' <= c <= '9' then Some(c as int - 48)
    else if 'A' <= c <= 'F' then Some(c as int - 55)
    else if 'a' <= c <= 'f' then Some(c as int - 87)
    else None
  }

  lemma HexDigitValue(n: int)
    requires 0 <= n < 16
    ensures HexValue(HexDigit(n)) == Some(n)
  {
  }

  type Byte = b: int | 0 <= b < 256

  /** The UTF-8 encoding of one Unicode scalar value. */
  function Utf8(c: char): (bytes: seq<Byte>)
    ensures 1 <= |bytes| <= 4
    ensures (c as int < 0x80) <==> bytes == [c as int]
  {
    var cp := c as int;
    if cp < 0x80 then [cp]
    else if cp < 0x800 then [0xC0 + cp / 0x40, 0x80 + cp % 0x40]
    else if cp < 0x10000 then [0xE0 + cp / 0x1000, 0x80 + (cp / 0x40) % 0x40, 0x80 + cp % 0x40]
    else [0xF0 + cp / 0x40000, 0x80 + (cp / 0x1000) % 0x40, 0x80 + (cp / 0x40) % 0x40, 0x80 + cp % 0x40]
  }

  /** `%XY` for each byte. */
  function PercentBytes(bytes: seq<Byte>): (s: string)
    ensures |s| == 3 * |bytes|
  {
    if bytes == [] then ""
    else ['%', HexDigit(bytes[0] / 16), HexDigit(bytes[0] % 16)] + PercentBytes(bytes[1..])
  }

  lemma {:induction false} PercentBytesSafe(bytes: seq<Byte>)
    ensures forall i :: 0 <= i < |PercentBytes(bytes)| ==> Unreserved(PercentBytes(bytes)[i]) || PercentBytes(bytes)[i] == '%'
  {
    if bytes != [] {
      PercentBytesSafe(bytes[1..]);
      var head := ['%', HexDigit(bytes[0] / 16), HexDigit(bytes[0] % 16)];
      var tail := PercentBytes(bytes[1..]);
      assert forall i :: 0 <= i < |head + tail| ==> (head + tail)[i] == if i < |head| then head[i] else tail[i - |head|];
    }
  }

  function EncodeChar(c: char): (s: string)
  {
    if Unreserved(c) then [c] else PercentBytes(Utf8(c))
  }

  lemma EncodeCharSafe(c: char)
    ensures forall i :: 0 <= i < |EncodeChar(c)| ==> Unreserved(EncodeChar(c)[i]) || EncodeChar(c)[i] == '%'
  {
    if !Unreserved(c) {
      PercentBytesSafe(Utf8(c));
    }
  }

  /** `encodeURIComponent(s)`: each character in turn, unreserved ones as they are, others as `%XY` escapes of their UTF-8 bytes. */
  function EncodeURIComponent(s: string): string
  {
    if s == [] then "" else EncodeChar(s[0]) + EncodeURIComponent(s[1..])
  }

  /** Only unreserved characters and `%` come out of the encoder... */
  lemma {:induction false} EncodedCharsSafe(s: string)
    ensures forall i :: 0 <= i < |EncodeURIComponent(s)| ==> Unreserved(EncodeURIComponent(s)[i]) || EncodeURIComponent(s)[i] == '%'
  {
    if s != [] {
      EncodedCharsSafe(s[1..]);
      EncodeCharSafe(s[0]);
      var head, tail := EncodeChar(s[0]), EncodeURIComponent(s[1..]);
      assert forall i :: 0 <= i < |head + tail| ==> (head + tail)[i] == if i < |head| then head[i] else tail[i - |head|];
    }
  }

  /** ...so an encoded value cannot end a query parameter, start another, or end the query. */
  lemma EncodedHasNoDelimiters(s: string)
    ensures '&' !in EncodeURIComponent(s) && '=' !in EncodeURIComponent(s)
    ensures '?' !in EncodeURIComponent(s) && '#' !in EncodeURIComponent(s) && ' ' !in EncodeURIComponent(s)
  {
    EncodedCharsSafe(s);
  }

  lemma {:induction false} EncodeConcat(a: string, b: string)
    ensures EncodeURIComponent(a + b) == EncodeURIComponent(a) + EncodeURIComponent(b)
  {
    if a != [] {
      assert (a + b)[1..] == a[1..] + b;
      EncodeConcat(a[1..], b);
    } else {
      assert a + b == b;
    }
  }

  /** Text made of unreserved characters is left as it is. */
  lemma {:induction false} EncodeUnreserved(s: string)
    requires forall i :: 0 <= i < |s| ==> Unreserved(s[i])
    ensures EncodeURIComponent(s) == s
  {
    if s != [] {
      EncodeUnreserved(s[1..]);
    }
  }

  /** `%XY` decoding of each escape; other characters stand for themselves. */
  function PercentDecode(s: string): string
  {
    if |s| >= 3 && s[0] == '%' && HexValue(s[1]).Some? && HexValue(s[2]).Some? then
      [(HexValue(s[1]).value * 16 + HexValue(s[2]).value) as char] + PercentDecode(s[3..])
    else if s == [] then ""
    else [s[0]] + PercentDecode(s[1..])
  }

  lemma {:induction false} DecodeEncodedChar(c: char, rest: string)
    requires c as int < 0x80
    ensures PercentDecode(EncodeChar(c) + rest) == [c] + PercentDecode(rest)
  {
    if !Unreserved(c) {
      var n := c as int;
      HexDigitValue(n / 16);
      HexDigitValue(n % 16);
      assert EncodeChar(c) == ['%', HexDigit(n / 16), HexDigit(n % 16)];
      var e := EncodeChar(c) + rest;
      assert e[3..] == rest;
      assert (HexValue(e[1]).value * 16 + HexValue(e[2]).value) as char == c;
    } else {
      assert c != '%';
      var e := [c] + rest;
      assert e[1..] == rest;
    }
  }

  /** Decoding undoes `encodeURIComponent` on ASCII text (the only text a callback URL holds in practice). */
  lemma {:induction false} DecodeEncode(s: string)
    requires forall i :: 0 <= i < |s| ==> s[i] as int < 0x80
    ensures PercentDecode(EncodeURIComponent(s)) == s
  {
    if s != [] {
      DecodeEncode(s[1..]);
      DecodeEncodedChar(s[0], EncodeURIComponent(s[1..]));
    }
  }

  // ---------------------------------------------------------------------------
  // Splitting a query string

  /** `s.split(sep)`. */
  function Split(s: string, sep: char): (parts: seq<string>)
    ensures |parts| >= 1
  {
    if s == [] then [""]
    else
      var rest := Split(s[1..], sep);
      if s[0] == sep then [""] + rest else [[s[0]] + rest[0]] + rest[1..]
  }

  lemma {:induction false} SplitNoSeparator(a: string, sep: char)
    requires sep !in a
    ensures Split(a, sep) == [a]
  {
    if a != [] {
      assert a[0] != sep && sep !in a[1..];
      SplitNoSeparator(a[1..], sep);
      assert [a[0]] + a[1..] == a;
    }
  }

  lemma {:induction false} SplitAtSeparator(a: string, b: string, sep: char)
    requires sep !in a
    ensures Split(a + [sep] + b, sep) == [a] + Split(b, sep)
  {
    var s := a + [sep] + b;
    if a == [] {
      assert s[0] == sep && s[1..] == b;
    } else {
      assert s[0] == a[0] && a[0] != sep && sep !in a[1..];
      assert s[1..] == a[1..] + [sep] + b;
      SplitAtSeparator(a[1..], b, sep);
      assert [a[0]] + a[1..] == a;
    }
  }

  /** `parts.join(sep)`. */
  function Join(parts: seq<string>, sep: char): string
  {
    if parts == [] then ""
    else if |parts| == 1 then parts[0]
    else parts[0] + [sep] + Join(parts[1..], sep)
  }

  /** Splitting undoes joining when no part holds the separator. */
  lemma {:induction false} SplitJoin(parts: seq<string>, sep: char)
    requires |parts| >= 1
    requires forall i :: 0 <= i < |parts| ==> sep !in parts[i]
    ensures Split(Join(parts, sep), sep) == parts
  {
    if |parts| == 1 {
      SplitNoSeparator(parts[0], sep);
    } else {
      SplitJoin(parts[1..], sep);
      SplitAtSeparator(parts[0], Join(parts[1..], sep), sep);
    }
  }

  // ---------------------------------------------------------------------------
  // The two requests

  function AuthorizeEndpoint(tenantId: Option<string>): string {
    "https://login.microsoftonline.com/" + Interpolate(tenantId) + "/oauth2/v2.0/authorize?"
  }

  /**
   * The five `name=value` parameters, in the order the URL lists them. The
   * scope is a parameter here so that the lemmas below hold for any scope;
   * the source always passes `Scope`.
   */
  function AuthorizationParams(cfg: OAuthConfig, scope: string): seq<string> {
    ["client_id=" + Interpolate(cfg.clientId),
     "response_type=code",
     "redirect_uri=" + EncodeURIComponent(Interpolate(cfg.callbackUrl)),
     "scope=" + EncodeURIComponent(scope),
     "response_mode=query"]
  }

  function AuthorizationQuery(cfg: OAuthConfig, scope: string): string {
    Join(AuthorizationParams(cfg, scope), '&')
  }

  /** The authorization request URL; tenant and client id are interpolated without encoding. */
  function AuthorizationUrl(cfg: OAuthConfig): string {
    AuthorizeEndpoint(cfg.tenantId) + AuthorizationQuery(cfg, Scope)
  }

  /**
   * `GET /login/microsoft`: a redirect to the tenant's authorize endpoint.
   * With a client id free of `&`, the query after the endpoint splits into
   * exactly the five parameters in their fixed order, and the redirect URI
   * and scope it carries are the percent-encodings of the ones every token
   * request for this configuration sends (`TokenRequest` fields 3 and 5).
   */
  function BeginLogin(cfg: OAuthConfig): (r: Response)
    ensures r.Redirect? && r.location.Authorize?
    ensures var e := AuthorizeEndpoint(cfg.tenantId);
      |e| <= |r.location.url| && r.location.url[..|e|] == e
    ensures var e := AuthorizeEndpoint(cfg.tenantId);
      '&' !in Interpolate(cfg.clientId) ==>
        Split(r.location.url[|e|..], '&') ==
          ["client_id=" + Interpolate(cfg.clientId),
           "response_type=code",
           "redirect_uri=" + EncodeURIComponent(Interpolate(cfg.callbackUrl)),
           "scope=" + EncodeURIComponent(Scope),
           "response_mode=query"]
  {
    LoginUrlShape(cfg, Scope);
    Redirect(Authorize(AuthorizationUrl(cfg)))
  }

  /** `BeginLogin`'s facts about its URL, for any scope. */
  lemma {:induction false} LoginUrlShape(cfg: OAuthConfig, scope: string)
    ensures var e := AuthorizeEndpoint(cfg.tenantId); var url := e + AuthorizationQuery(cfg, scope);
      && |e| <= |url| && url[..|e|] == e
      && ('&' !in Interpolate(cfg.clientId) ==>
            Split(url[|e|..], '&') ==
              ["client_id=" + Interpolate(cfg.clientId),
               "response_type=code",
               "redirect_uri=" + EncodeURIComponent(Interpolate(cfg.callbackUrl)),
               "scope=" + EncodeURIComponent(scope),
               "response_mode=query"])
  {
    var e := AuthorizeEndpoint(cfg.tenantId);
    var q := AuthorizationQuery(cfg, scope);
    assert (e + q)[..|e|] == e;
    assert (e + q)[|e|..] == q;
    if '&' !in Interpolate(cfg.clientId) {
      AuthorizationParameters(cfg, "", scope);
    }
  }

  /** The form fields of the code-for-token POST, in the order the source lists them. */
  function TokenRequest(cfg: OAuthConfig, code: string, scope: string): (fields: seq<(string, string)>)
    ensures |fields| == 6
    ensures fields[2] == ("code", code)
    ensures fields[3] == ("redirect_uri", Interpolate(cfg.callbackUrl)) && fields[5] == ("scope", scope)
  {
    [("client_id", Interpolate(cfg.clientId)),
     ("client_secret", Interpolate(cfg.clientSecret)),
     ("code", code),
     ("redirect_uri", Interpolate(cfg.callbackUrl)),
     ("grant_type", "authorization_code"),
     ("scope", scope)]
  }

  /**
   * With a client id free of `&`, the query of the authorization URL
   * (`AuthorizationUrl` passes `Scope` as `scope`) splits
   * into exactly its five parameters in their fixed order, and the redirect
   * URI and scope it carries are the percent-encodings of the ones the token
   * request sends; for an ASCII callback URL, decoding gives that one back.
   */
  lemma {:induction false} AuthorizationParameters(cfg: OAuthConfig, code: string, scope: string)
    requires '&' !in Interpolate(cfg.clientId)
    ensures TokenRequest(cfg, code, scope)[3].0 == "redirect_uri" && TokenRequest(cfg, code, scope)[5].0 == "scope"
    ensures Split(AuthorizationQuery(cfg, scope), '&') ==
      ["client_id=" + Interpolate(cfg.clientId),
       "response_type=code",
       "redirect_uri=" + EncodeURIComponent(TokenRequest(cfg, code, scope)[3].1),
       "scope=" + EncodeURIComponent(TokenRequest(cfg, code, scope)[5].1),
       "response_mode=query"]
    ensures (forall i :: 0 <= i < |Interpolate(cfg.callbackUrl)| ==> Interpolate(cfg.callbackUrl)[i] as int < 0x80) ==>
      PercentDecode(EncodeURIComponent(Interpolate(cfg.callbackUrl))) == TokenRequest(cfg, code, scope)[3].1
  {
    var ps := AuthorizationParams(cfg, scope);
    EncodedHasNoDelimiters(Interpolate(cfg.callbackUrl));
    EncodedHasNoDelimiters(scope);
    assert '&' !in ps[0] && '&' !in ps[2] && '&' !in ps[3];
    SplitJoin(ps, '&');
    if forall i :: 0 <= i < |Interpolate(cfg.callbackUrl)| ==> Interpolate(cfg.callbackUrl)[i] as int < 0x80 {
      DecodeEncode(Interpolate(cfg.callbackUrl));
    }
  }
}
