/** What a dynamic registration may contain (src/dcr.rs:189-350): the host of a redirect target,
    the limits an initial access token puts on a client, and the rule for later edits. */
module RegistrationRules {
  import opened Documents
  import opened Text

  // ----- The host of a redirect target -----

  const HTTPS := "https://"

  function HttpsHost(uri: string): Option<string> {
    if '#' in uri || !(HTTPS <= uri) then None
    else
      var authority := UpTo(uri[|HTTPS|..], '/');
      var host := UpTo(authority, ':');
      if '@' in authority || host == "" then None else Some(host)
  }

  /** A host, then optionally a port, then optionally a path. */
  ghost predicate HasHost(uri: string, host: string, port: string, path: string) {
    && uri == HTTPS + host + port + path
    && host != "" && (forall c :: c in host ==> c != ':' && c != '/')
    && (port == "" || port[0] == ':') && '/' !in port && (path == "" || path[0] == '/')
    && '@' !in host && '@' !in port && '#' !in uri
  }

  lemma HostIsFound(uri: string, host: string, port: string, path: string)
    requires HasHost(uri, host, port, path)
    ensures HttpsHost(uri) == Some(host)
  {
    assert uri == HTTPS + (host + port + path);
    assert uri[|HTTPS|..] == host + port + path == (host + port) + path;
    UpToJoined(host + port, path, '/');
    UpToJoined(host, port, ':');
  }

  lemma Regrouped(scheme: string, host: string, port: string, path: string)
    ensures scheme + ((host + port) + path) == scheme + host + port + path
  {}

  lemma FoundIsHost(uri: string) returns (port: string, path: string)
    requires HttpsHost(uri).Some?
    ensures HasHost(uri, HttpsHost(uri).value, port, path)
  {
    var rest := uri[|HTTPS|..];
    var authority := UpTo(rest, '/');
    var host := UpTo(authority, ':');
    port, path := authority[|host|..], rest[|authority|..];
    assert authority == host + port;
    assert rest == authority + path;
    assert uri == HTTPS + rest;
    Regrouped(HTTPS, host, port, path);
  }

  /** `HttpsHost` finds `host` exactly when the target reads https, host, port, path with no userinfo
      and no fragment. */
  lemma HttpsHostIsTheHost(uri: string, host: string)
    ensures HttpsHost(uri) == Some(host) <==> exists port, path :: HasHost(uri, host, port, path)
  {
    if HttpsHost(uri) == Some(host) {
      var port, path := FoundIsHost(uri);
    }
    if port, path :| HasHost(uri, host, port, path) {
      HostIsFound(uri, host, port, path);
    }
  }

  /** eq_ignore_ascii_case. */
  predicate SameHost(a: string, b: string) {
    Lower(a) == Lower(b)
  }

  predicate HostIn(host: string, hosts: seq<string>) {
    exists i :: 0 <= i < |hosts| && SameHost(hosts[i], host)
  }

  // ----- The host an accepted target really has -----

  /** What ends an authority by section 3.2 of RFC 3986, and the backslash, which browsers read as a slash. */
  predicate EndsAuthority(c: char) {
    c == '/' || c == '?' || c == '#' || c == '\\'
  }

  function AuthorityOf(rest: string): string {
    if rest == "" || EndsAuthority(rest[0]) then "" else [rest[0]] + AuthorityOf(rest[1..])
  }

  predicate PlainHost(host: string) {
    forall c :: c in host ==> !EndsAuthority(c)
  }

  lemma {:induction false} AuthorityBegins(p: string, rest: string)
    requires PlainHost(p)
    ensures AuthorityOf(p + rest) == p + AuthorityOf(rest)
  {
    if p == "" {
      assert p + rest == rest;
    } else {
      PlainTail(p);
      AuthorityBegins(p[1..], rest);
      AuthorityStep(p, rest);
    }
  }

  lemma PlainTail(p: string)
    requires PlainHost(p) && p != ""
    ensures !EndsAuthority(p[0]) && PlainHost(p[1..])
  {
    assert p[0] in p;
    assert forall c :: c in p[1..] ==> c in p;
  }

  lemma AuthorityOfCons(c: char, rest: string)
    requires !EndsAuthority(c)
    ensures AuthorityOf([c] + rest) == [c] + AuthorityOf(rest)
  {
    assert ([c] + rest)[1..] == rest;
  }

  lemma AuthorityStep(p: string, rest: string)
    requires p != "" && !EndsAuthority(p[0])
    requires AuthorityOf(p[1..] + rest) == p[1..] + AuthorityOf(rest)
    ensures AuthorityOf(p + rest) == p + AuthorityOf(rest)
  {
    ConsJoined(p, rest);
    ConsJoined(p, AuthorityOf(rest));
    AuthorityOfCons(p[0], p[1..] + rest);
  }

  lemma ConsJoined(p: string, rest: string)
    requires p != ""
    ensures p + rest == [p[0]] + (p[1..] + rest)
  {}

  lemma {:induction false} LowerKeeps(s: string, c: char)
    requires !('a' <= c <= 'z') && !('A' <= c <= 'Z')
    ensures c in Lower(s) <==> c in s
  {
    if s != "" { LowerKeeps(s[1..], c); }
  }

  lemma SameHostIsPlain(a: string, b: string)
    requires SameHost(a, b) && PlainHost(a)
    ensures PlainHost(b)
  {
    LowerKeeps(a, '/'); LowerKeeps(b, '/');
    LowerKeeps(a, '?'); LowerKeeps(b, '?');
    LowerKeeps(a, '#'); LowerKeeps(b, '#');
    LowerKeeps(a, '\\'); LowerKeeps(b, '\\');
  }

  /** The host of an authority by section 3.2.2 of RFC 3986: an address in brackets, or the text before the port. */
  function HostOfAuthority(a: string): string {
    if OpensBracket(a) && ']' in a then UpTo(a, ']') + "]" else UpTo(a, ':')
  }

  predicate OpensBracket(s: string) {
    s != "" && s[0] == '['
  }

  function UriHost(uri: string): string
    requires HTTPS <= uri
  {
    HostOfAuthority(AuthorityOf(uri[|HTTPS|..]))
  }

  /** Closed by a bracket at its end and nowhere before. */
  predicate ClosedAtEnd(h: string) {
    h != "" && h[|h| - 1] == ']' && ']' !in h[..|h| - 1]
  }

  lemma ClosedAtEndMeans(h: string)
    requires ']' in h
    ensures UpTo(h, ']') + "]" == h <==> ClosedAtEnd(h)
  {
    var u := UpTo(h, ']');
    assert u != h && h[|u|] == ']';
    if u + "]" == h { assert h[..|h| - 1] == u; }
    if ClosedAtEnd(h) {
      assert forall i :: 0 <= i < |h| - 1 ==> h[..|h| - 1][i] != ']' && h[i] == h[..|h| - 1][i];
      assert |u| == |h| - 1;
    }
  }

  lemma {:induction false} UpToWithin(h: string, more: string, c: char)
    requires c in h
    ensures UpTo(h + more, c) == UpTo(h, c)
  {
    if h[0] != c {
      assert h == [h[0]] + h[1..];
      UpToWithin(h[1..], more, c);
      assert (h + more)[1..] == h[1..] + more;
    }
  }

  lemma {:induction false} AuthorityIsPlain(rest: string)
    ensures PlainHost(AuthorityOf(rest)) && AuthorityOf(rest) <= rest
  {
    if rest != "" && !EndsAuthority(rest[0]) { AuthorityIsPlain(rest[1..]); }
  }

  lemma HostOfAuthorityIsPlain(a: string)
    requires PlainHost(a)
    ensures PlainHost(HostOfAuthority(a))
  {
    forall c | c in HostOfAuthority(a) ensures !EndsAuthority(c) {
      assert c in UpTo(a, ']') || c in UpTo(a, ':') || c == ']';
      assert c != ']' ==> c in a;
    }
  }

  /** The host of an authority that begins with a plain host found by the check. */
  lemma HostBeforePort(h: string, more: string)
    requires h != "" && ':' !in h && (more == "" || more[0] == ':')
    ensures HostOfAuthority(h + more) == h <==> (OpensBracket(h) && ']' in h + more ==> ClosedAtEnd(h))
  {
    UpToJoined(h, more, ':');
    if OpensBracket(h) && ']' in h + more {
      if ']' in h {
        UpToWithin(h, more, ']');
        ClosedAtEndMeans(h);
      } else {
        var host := UpTo(h + more, ']') + "]";
        assert host[|host| - 1] == ']';
        assert host[|host| - 1] in host;
      }
    }
  }

  /** What a bracket in the host found asks of it. */
  predicate BracketOk(uri: string)
    requires HttpsHost(uri).Some?
  {
    var h := HttpsHost(uri).value;
    OpensBracket(h) && ']' in AuthorityOf(uri[|HTTPS|..]) ==> ClosedAtEnd(h)
  }

  /** The host checked is the host the target has exactly when it is plain and, where it opens an address in
      brackets that the authority closes, is that whole address. */
  lemma CheckedHostIsUriHost(uri: string)
    requires HttpsHost(uri).Some?
    ensures UriHost(uri) == HttpsHost(uri).value <==> PlainHost(HttpsHost(uri).value) && BracketOk(uri)
  {
    var h := HttpsHost(uri).value;
    var port, path := FoundIsHost(uri);
    if PlainHost(h) {
      var more := AfterHost(uri, h, port, path);
      HostBeforePort(h, more);
    } else {
      AuthorityIsPlain(uri[|HTTPS|..]);
      HostOfAuthorityIsPlain(AuthorityOf(uri[|HTTPS|..]));
    }
  }

  lemma AfterHost(uri: string, host: string, port: string, path: string) returns (more: string)
    requires HasHost(uri, host, port, path) && PlainHost(host)
    ensures AuthorityOf(uri[|HTTPS|..]) == host + more && (more == "" || more[0] == ':')
  {
    more := AuthorityOf(port + path);
    assert uri[|HTTPS|..] == host + (port + path);
    AuthorityBegins(host, port + path);
    StopsAtSlash(port, path);
  }

  /** Some target can be accepted for this allowed host. */
  predicate Usable(host: string) {
    host != "" && '/' !in host && ':' !in host && '#' !in host && '@' !in host
  }

  /** Plain, and a whole address if it opens one. */
  predicate Safe(host: string) {
    PlainHost(host) && (OpensBracket(host) ==> ClosedAtEnd(host))
  }

  predicate SafeWhereUsable(hosts: seq<string>) {
    forall i :: 0 <= i < |hosts| && Usable(hosts[i]) ==> Safe(hosts[i])
  }

  lemma SameHostIsUsable(a: string, b: string)
    requires SameHost(a, b) && Usable(a)
    ensures Usable(b)
  {
    LowerKeeps(a, '/'); LowerKeeps(b, '/');
    LowerKeeps(a, ':'); LowerKeeps(b, ':');
    LowerKeeps(a, '#'); LowerKeeps(b, '#');
    LowerKeeps(a, '@'); LowerKeeps(b, '@');
  }

  lemma {:induction false} LowerAt(s: string, i: nat)
    requires i < |s|
    ensures |Lower(s)| == |s| && Lower(s)[i] == LowerChar(s[i])
  {
    if i > 0 { LowerAt(s[1..], i - 1); } else if |s| > 1 { LowerAt(s[1..], 0); }
  }

  lemma SameBrackets(a: string, b: string, i: nat)
    requires SameHost(a, b) && i < |a|
    ensures |a| == |b| && (a[i] == '[' <==> b[i] == '[') && (a[i] == ']' <==> b[i] == ']')
  {
    LowerAt(a, i);
    if b != "" { LowerAt(b, 0); }
    LowerAt(b, i);
  }

  lemma SameHostIsSafe(a: string, b: string)
    requires SameHost(a, b) && Safe(a) && a != ""
    ensures Safe(b)
  {
    SameHostIsPlain(a, b);
    SameBrackets(a, b, 0);
    SameBrackets(a, b, |a| - 1);
    if OpensBracket(b) {
      forall i | 0 <= i < |b| - 1 ensures b[i] != ']' {
        SameBrackets(a, b, i);
        assert a[..|a| - 1][i] != ']';
      }
    }
  }

  lemma FoundIsUsable(uri: string)
    requires HttpsHost(uri).Some?
    ensures Usable(HttpsHost(uri).value)
  {
    var port, path := FoundIsHost(uri);
  }

  lemma SafeUnderHosts(uri: string, hosts: seq<string>)
    requires HttpsHost(uri).Some? && HostIn(HttpsHost(uri).value, hosts) && SafeWhereUsable(hosts)
    ensures UriHost(uri) == HttpsHost(uri).value
  {
    var host := HttpsHost(uri).value;
    var i :| 0 <= i < |hosts| && SameHost(hosts[i], host);
    FoundIsUsable(uri);
    SameHostIsUsable(host, hosts[i]);
    SameHostIsSafe(hosts[i], host);
    CheckedHostIsUriHost(uri);
  }

  /** A port that closes the address the host has opened. */
  ghost predicate ClosesAddress(host: string, port: string) {
    && Usable(host) && PlainHost(host) && OpensBracket(host) && ']' !in host
    && port != "" && port[0] == ':' && PlainHost(port) && '@' !in port && ']' in port
  }

  lemma AddressAuthority(host: string, port: string, path: string)
    requires PlainHost(host) && PlainHost(port) && (path == "" || path[0] == '/')
    ensures AuthorityOf((host + port) + path) == host + port
  {
    assert PlainHost(host + port);
    AuthorityBegins(host + port, path);
    assert AuthorityOf(path) == "";
  }

  lemma AddressHost(host: string, port: string)
    requires ClosesAddress(host, port)
    ensures HostOfAuthority(host + port) == UpTo(host + port, ']') + "]" != host
  {
    assert OpensBracket(host + port) && ']' in host + port;
    var found := UpTo(host + port, ']') + "]";
    assert found[|found| - 1] in found;
  }

  lemma AddressAccepted(host: string, port: string, path: string)
    requires ClosesAddress(host, port) && (path == "" || path[0] == '/') && '#' !in path
    ensures HttpsHost(HTTPS + host + port + path) == Some(host)
  {
    HostIsFound(HTTPS + host + port + path, host, port, path);
  }

  /** A plain host that only opens an address is found in every address that begins so. */
  lemma AddressBeginsSo(host: string, port: string, path: string)
    requires ClosesAddress(host, port) && (path == "" || path[0] == '/') && '#' !in path
    ensures HttpsHost(HTTPS + host + port + path) == Some(host)
    ensures UriHost(HTTPS + host + port + path) == UpTo(host + port, ']') + "]" != host
  {
    var uri := HTTPS + host + port + path;
    AddressAccepted(host, port, path);
    Regrouped(HTTPS, host, port, path);
    assert uri[|HTTPS|..] == (host + port) + path;
    AddressAuthority(host, port, path);
    AddressHost(host, port);
  }

  /** A target that is accepted for an unsafe host and has another. */
  lemma UnsafeHostIsSpoofed(host: string) returns (uri: string)
    requires Usable(host) && !Safe(host)
    ensures HttpsHost(uri) == Some(host) && UriHost(uri) != host
  {
    if PlainHost(host) && ']' !in host {
      AddressBeginsSo(host, ":]", "");
      uri := HTTPS + host + ":]" + "";
    } else {
      uri := HTTPS + host;
      HostIsFound(uri, host, "", "");
      if PlainHost(host) { AuthorityBegins(host, ""); }
      assert uri[|HTTPS|..] == host + "" == host;
      CheckedHostIsUriHost(uri);
    }
  }

  /** Every target accepted under these hosts has the host it was accepted for. */
  ghost predicate NeverSpoofed(hosts: seq<string>) {
    forall uri :: HttpsHost(uri).Some? && HostIn(HttpsHost(uri).value, hosts) ==>
      UriHost(uri) == HttpsHost(uri).value
  }

  /** No target can be spoofed under an access token exactly when each of its hosts is safe, or admits no target
      at all. */
  lemma NeverSpoofedExactlyWhenSafe(hosts: seq<string>)
    ensures NeverSpoofed(hosts) <==> SafeWhereUsable(hosts)
  {
    if NeverSpoofed(hosts) {
      forall i | 0 <= i < |hosts| && Usable(hosts[i]) ensures Safe(hosts[i]) {
        assert HostIn(hosts[i], hosts) by { assert SameHost(hosts[i], hosts[i]); }
        if !Safe(hosts[i]) {
          var uri := UnsafeHostIsSpoofed(hosts[i]);
          assert false;
        }
      }
    }
    if SafeWhereUsable(hosts) {
      forall uri | HttpsHost(uri).Some? && HostIn(HttpsHost(uri).value, hosts)
        ensures UriHost(uri) == HttpsHost(uri).value
      {
        SafeUnderHosts(uri, hosts);
      }
    }
  }

  /** The authority of an accepted target never has userinfo; if the allowed hosts are safe where usable, its host
      is the one checked, which is allowed. */
  lemma AcceptedTargetGoesToAllowedHost(uri: string, hosts: seq<string>)
    requires HttpsHost(uri).Some? && HostIn(HttpsHost(uri).value, hosts)
    ensures '@' !in AuthorityOf(uri[|HTTPS|..])
    ensures SafeWhereUsable(hosts) ==> UriHost(uri) == HttpsHost(uri).value && HostIn(UriHost(uri), hosts)
  {
    var port, path := FoundIsHost(uri);
    var host := HttpsHost(uri).value;
    assert uri[|HTTPS|..] == (host + port) + path;
    StopsAtSlash(host + port, path);
    if SafeWhereUsable(hosts) { SafeUnderHosts(uri, hosts); }
  }

  lemma {:induction false} StopsAtSlash(port: string, path: string)
    requires path == "" || path[0] == '/'
    ensures AuthorityOf(port + path) <= port
  {
    if port == "" {
      assert port + path == path;
    } else {
      StopsAtSlash(port[1..], path);
      assert (port + path)[1..] == port[1..] + path;
    }
  }

  /** A target accepted for an allowed host that is not plain. */
  lemma QuestionMarkInHost()
    ensures HttpsHost("https://h?x") == Some("h?x") && AuthorityOf("h?x") == "h"
  {
    HostIsFound("https://h?x", "h?x", "", "");
    assert "h?x"[1..] == "?x";
    assert AuthorityOf("?x") == "";
  }

  /** A target accepted for a plain host that only opens an address. */
  lemma AddressInBrackets()
    ensures var uri := HTTPS + "[2001" + (":db8::1" + "]") + "/cb";
      HttpsHost(uri) == Some("[2001") && PlainHost("[2001") && UriHost(uri) == "[2001" + ":db8::1" + "]"
  {
    BracketClosed("[2001", ":db8::1");
    AddressBeginsSo("[2001", ":db8::1" + "]", "/cb");
  }

  lemma BracketClosed(host: string, port: string)
    requires Usable(host) && PlainHost(host) && OpensBracket(host) && ']' !in host
    requires port != "" && port[0] == ':' && PlainHost(port) && '@' !in port && ']' !in port
    ensures ClosesAddress(host, port + "]") && UpTo(host + (port + "]"), ']') + "]" == host + port + "]"
  {
    UpToJoined(host + port, "]", ']');
    assert host + (port + "]") == host + port + "]";
  }

  // ----- What an initial access token allows -----

  datatype Profile = Public | ConfidentialSecret | ConfidentialKey

  datatype Constraints = Constraints(hosts: seq<string>, grants: seq<string>, profile: Profile)

  datatype RegistrationRequest = RegistrationRequest(
    redirectUris: seq<string>, postLogoutUris: seq<string>, grants: seq<string>,
    jwks: seq<string>, jwksUri: Option<string>)

  datatype Client = Client(
    id: string,
    redirectUris: seq<string>,
    postLogoutUris: seq<string>,
    authMethod: string,
    secretHash: Option<string>,
    grants: seq<string>,
    dpopBound: bool,
    jwks: seq<string>,
    jwksUri: Option<string>,
    requirePar: bool,
    requirePkce: bool)

  datatype DcrError =
    | NoRedirectUris
    | InsecureRedirectUri(uri: string)
    | RedirectHostNotAllowed(host: string)
    | InsecurePostLogoutUri(uri: string)
    | PostLogoutHostNotAllowed(host: string)
    | GrantNotAllowed(grant: string)
    | MissingJwks

  datatype Checked = Ok(client: Client) | Err(error: DcrError)

  /** The first target that is not https or not on an allowed host. */
  function FirstBadUri(uris: seq<string>, hosts: seq<string>): Option<string> {
    if uris == [] then None
    else if HttpsHost(uris[0]).None? || !HostIn(HttpsHost(uris[0]).value, hosts) then Some(uris[0])
    else FirstBadUri(uris[1..], hosts)
  }

  function FirstBadGrant(grants: seq<string>, allowed: seq<string>): Option<string> {
    if grants == [] then None
    else if grants[0] !in allowed then Some(grants[0])
    else FirstBadGrant(grants[1..], allowed)
  }

  predicate NoKeys(r: RegistrationRequest) {
    r.jwks == [] && (r.jwksUri.None? || r.jwksUri.value == "")
  }

  function GrantsFor(r: RegistrationRequest): seq<string> {
    if r.grants == [] then ["authorization_code"] else r.grants
  }

  function Build(id: string, r: RegistrationRequest, p: Profile, secretHash: string): Client {
    var base := Client(id, r.redirectUris, r.postLogoutUris, "", None, GrantsFor(r), false, [], None, false, false);
    match p
    case ConfidentialKey =>
      base.(authMethod := "private_key_jwt", dpopBound := true, jwks := r.jwks, jwksUri := r.jwksUri,
            requirePar := true, requirePkce := true)
    case ConfidentialSecret =>
      base.(authMethod := "client_secret_basic", secretHash := Some(secretHash), requirePkce := true)
    case Public => base.(authMethod := "none", dpopBound := true)
  }

  function ValidateRegistration(id: string, r: RegistrationRequest, c: Constraints, secretHash: string): Checked {
    var badRedirect := FirstBadUri(r.redirectUris, c.hosts);
    var badLogout := FirstBadUri(r.postLogoutUris, c.hosts);
    var badGrant := FirstBadGrant(r.grants, c.grants);
    if r.redirectUris == [] then Err(NoRedirectUris)
    else if badRedirect.Some? then
      Err(if HttpsHost(badRedirect.value).None? then InsecureRedirectUri(badRedirect.value)
          else RedirectHostNotAllowed(HttpsHost(badRedirect.value).value))
    else if badLogout.Some? then
      Err(if HttpsHost(badLogout.value).None? then InsecurePostLogoutUri(badLogout.value)
          else PostLogoutHostNotAllowed(HttpsHost(badLogout.value).value))
    else if badGrant.Some? then Err(GrantNotAllowed(badGrant.value))
    else if c.profile.ConfidentialKey? && NoKeys(r) then Err(MissingJwks)
    else Ok(Build(id, r, c.profile, secretHash))
  }

  /** Every target is https on one of the hosts. */
  ghost predicate Within(uris: seq<string>, hosts: seq<string>) {
    forall i :: 0 <= i < |uris| ==> HttpsHost(uris[i]).Some? && HostIn(HttpsHost(uris[i]).value, hosts)
  }

  lemma {:induction false} NoBadUriMeansWithin(uris: seq<string>, hosts: seq<string>)
    ensures FirstBadUri(uris, hosts).None? <==> Within(uris, hosts)
    ensures FirstBadUri(uris, hosts).Some? ==>
              var u := FirstBadUri(uris, hosts).value;
              u in uris && !(HttpsHost(u).Some? && HostIn(HttpsHost(u).value, hosts))
  {
    if uris != [] {
      NoBadUriMeansWithin(uris[1..], hosts);
      assert forall i :: 0 < i < |uris| ==> uris[i] == uris[1..][i - 1];
    }
  }

  lemma {:induction false} NoBadGrantMeansAllowed(grants: seq<string>, allowed: seq<string>)
    ensures FirstBadGrant(grants, allowed).None? <==> forall g :: g in grants ==> g in allowed
  {
    if grants != [] {
      NoBadGrantMeansAllowed(grants[1..], allowed);
      assert grants == [grants[0]] + grants[1..];
    }
  }

  /** A request is accepted exactly when it stays within the token's limits, and the accepted client
      keeps the requested targets and gets its way of authenticating from the token alone. */
  lemma AcceptedMeansWithinLimits(id: string, r: RegistrationRequest, c: Constraints, secretHash: string)
    ensures ValidateRegistration(id, r, c, secretHash).Ok? <==>
      r.redirectUris != [] && Within(r.redirectUris, c.hosts) && Within(r.postLogoutUris, c.hosts) &&
      (forall g :: g in r.grants ==> g in c.grants) && (c.profile.ConfidentialKey? ==> !NoKeys(r))
    ensures ValidateRegistration(id, r, c, secretHash).Ok? ==>
      var client := ValidateRegistration(id, r, c, secretHash).client;
      client.id == id && Within(client.redirectUris, c.hosts) && Within(client.postLogoutUris, c.hosts) &&
      (client.authMethod == "none" <==> c.profile.Public?) &&
      (client.secretHash.Some? <==> c.profile.ConfidentialSecret?)
  {
    NoBadUriMeansWithin(r.redirectUris, c.hosts);
    NoBadUriMeansWithin(r.postLogoutUris, c.hosts);
    NoBadGrantMeansAllowed(r.grants, c.grants);
  }

  /** The client is what was requested, with the way of authenticating the token's profile prescribes. */
  ghost predicate AsRequested(client: Client, id: string, r: RegistrationRequest, profile: Profile,
                              secretHash: string)
  {
    && client.id == id && client.redirectUris == r.redirectUris && client.postLogoutUris == r.postLogoutUris
    && client.grants == (if r.grants == [] then ["authorization_code"] else r.grants)
    && match profile
       case Public =>
         client.authMethod == "none" && client.secretHash.None? && client.jwks == [] && client.jwksUri.None? &&
         client.dpopBound && !client.requirePar && !client.requirePkce
       case ConfidentialSecret =>
         client.authMethod == "client_secret_basic" && client.secretHash == Some(secretHash) && client.jwks == [] &&
         client.jwksUri.None? && !client.dpopBound && !client.requirePar && client.requirePkce
       case ConfidentialKey =>
         client.authMethod == "private_key_jwt" && client.secretHash.None? && client.jwks == r.jwks &&
         client.jwksUri == r.jwksUri && client.dpopBound && client.requirePar && client.requirePkce
  }

  lemma AcceptedClientIsAsRequested(id: string, r: RegistrationRequest, c: Constraints, secretHash: string)
    requires ValidateRegistration(id, r, c, secretHash).Ok?
    ensures AsRequested(ValidateRegistration(id, r, c, secretHash).client, id, r, c.profile, secretHash)
  {}

  /** A target that may not be registered: not https with a host, or on a host not allowed. */
  predicate Offends(uri: string, hosts: seq<string>) {
    HttpsHost(uri).None? || !HostIn(HttpsHost(uri).value, hosts)
  }

  /** The first offending target, if any. */
  lemma {:induction false} FirstBadUriIsFirst(uris: seq<string>, hosts: seq<string>)
    ensures match FirstBadUri(uris, hosts)
      case None => forall i :: 0 <= i < |uris| ==> !Offends(uris[i], hosts)
      case Some(u) => exists i :: 0 <= i < |uris| && uris[i] == u && Offends(u, hosts) &&
                                  forall j :: 0 <= j < i ==> !Offends(uris[j], hosts)
  {
    if uris != [] && Offends(uris[0], hosts) {
      assert uris[0] == FirstBadUri(uris, hosts).value;
    } else if uris != [] {
      FirstBadUriIsFirst(uris[1..], hosts);
      assert forall i :: 0 < i < |uris| ==> uris[i] == uris[1..][i - 1];
      if FirstBadUri(uris, hosts).Some? {
        var u := FirstBadUri(uris, hosts).value;
        var i :| 0 <= i < |uris| - 1 && uris[1..][i] == u && Offends(u, hosts) &&
                 forall j :: 0 <= j < i ==> !Offends(uris[1..][j], hosts);
        forall j | 0 <= j < i + 1 ensures !Offends(uris[j], hosts) {
          assert j > 0 ==> uris[j] == uris[1..][j - 1];
        }
        assert uris[i + 1] == u;
      }
    }
  }

  /** Which refusal is answered: redirect targets first, then logout targets, then grants, then keys. */
  lemma RefusalNamesItsCause(id: string, r: RegistrationRequest, c: Constraints, secretHash: string)
    ensures match ValidateRegistration(id, r, c, secretHash)
      case Ok(_) => true
      case Err(NoRedirectUris) => r.redirectUris == []
      case Err(InsecureRedirectUri(u)) => u in r.redirectUris && HttpsHost(u).None?
      case Err(RedirectHostNotAllowed(h)) =>
        !HostIn(h, c.hosts) && exists u :: u in r.redirectUris && HttpsHost(u) == Some(h)
      case Err(InsecurePostLogoutUri(u)) =>
        Within(r.redirectUris, c.hosts) && u in r.postLogoutUris && HttpsHost(u).None?
      case Err(PostLogoutHostNotAllowed(h)) =>
        Within(r.redirectUris, c.hosts) && !HostIn(h, c.hosts) &&
        exists u :: u in r.postLogoutUris && HttpsHost(u) == Some(h)
      case Err(GrantNotAllowed(g)) =>
        Within(r.redirectUris, c.hosts) && Within(r.postLogoutUris, c.hosts) && g in r.grants && g !in c.grants
      case Err(MissingJwks) =>
        Within(r.redirectUris, c.hosts) && Within(r.postLogoutUris, c.hosts) && c.profile.ConfidentialKey? &&
        r.jwks == [] && (r.jwksUri.None? || r.jwksUri.value == "")
  {
    NoBadUriMeansWithin(r.redirectUris, c.hosts);
    NoBadUriMeansWithin(r.postLogoutUris, c.hosts);
    BadGrantIsNotAllowed(r.grants, c.grants);
  }

  lemma {:induction false} BadGrantIsNotAllowed(grants: seq<string>, allowed: seq<string>)
    ensures FirstBadGrant(grants, allowed).Some? ==>
              FirstBadGrant(grants, allowed).value in grants && FirstBadGrant(grants, allowed).value !in allowed
  {
    if grants != [] { BadGrantIsNotAllowed(grants[1..], allowed); }
  }

  /** Hosts are compared character by character, the case of ASCII letters aside. */
  lemma SameHostMeans(a: string, b: string)
    ensures SameHost(a, b) <==> |a| == |b| && forall i :: 0 <= i < |a| ==> SameLetter(a[i], b[i])
  {
    LowerLength(a);
    LowerLength(b);
    forall i | 0 <= i < |a| ensures Lower(a)[i] == LowerChar(a[i]) { LowerAt(a, i); }
    forall i | 0 <= i < |b| ensures Lower(b)[i] == LowerChar(b[i]) { LowerAt(b, i); }
    if |a| == |b| && forall i :: 0 <= i < |a| ==> SameLetter(a[i], b[i]) {
      assert Lower(a) == Lower(b);
    }
    if SameHost(a, b) {
      forall i | 0 <= i < |a| ensures SameLetter(a[i], b[i]) { assert Lower(a)[i] == Lower(b)[i]; }
    }
  }

  predicate SameLetter(x: char, y: char) {
    x == y || ('A' <= x <= 'Z' && y as int == x as int + 32) || ('A' <= y <= 'Z' && x as int == y as int + 32)
  }

  lemma LowerLength(s: string)
    ensures |Lower(s)| == |s|
  {
    if s != "" { LowerAt(s, 0); }
  }

  // ----- Later edits by an administrator -----

  function HostsOf(uris: seq<string>): seq<string> {
    if uris == [] then []
    else (if HttpsHost(uris[0]).Some? then [HttpsHost(uris[0]).value] else []) + HostsOf(uris[1..])
  }

  predicate AdminMaySet(uris: seq<string>, clientRedirectUris: seq<string>) {
    FirstBadUri(uris, HostsOf(clientRedirectUris)).None?
  }

  lemma {:induction false} HostsOfAreHosts(uris: seq<string>, hosts: seq<string>)
    requires Within(uris, hosts)
    ensures forall h :: h in HostsOf(uris) ==> HostIn(h, hosts)
  {
    if uris != [] {
      assert Within(uris[1..], hosts) by {
        assert forall i :: 0 <= i < |uris| - 1 ==> uris[1..][i] == uris[i + 1];
      }
      HostsOfAreHosts(uris[1..], hosts);
    }
  }

  lemma {:induction false} HostsOfMeans(uris: seq<string>, h: string)
    ensures h in HostsOf(uris) <==> exists j :: 0 <= j < |uris| && HttpsHost(uris[j]) == Some(h)
  {
    if uris != [] {
      var rest := uris[1..];
      HostsOfMeans(rest, h);
      assert HostsOf(uris) == (if HttpsHost(uris[0]).Some? then [HttpsHost(uris[0]).value] else []) + HostsOf(rest);
      if h in HostsOf(rest) {
        var j :| 0 <= j < |rest| && HttpsHost(rest[j]) == Some(h);
        assert uris[j + 1] == rest[j];
        assert HttpsHost(uris[j + 1]) == Some(h);
      } else if h in HostsOf(uris) {
        assert HttpsHost(uris[0]) == Some(h);
      }
      if j :| 0 <= j < |uris| && HttpsHost(uris[j]) == Some(h) {
        if j > 0 {
          assert rest[j - 1] == uris[j];
          assert h in HostsOf(rest);
        } else {
          assert h in [HttpsHost(uris[0]).value];
        }
      }
    }
  }

  /** The target is https on the host of one of these, the case of letters aside. */
  ghost predicate OnHostOf(uri: string, redirectUris: seq<string>) {
    HttpsHost(uri).Some? &&
    exists j :: 0 <= j < |redirectUris| && HttpsHost(redirectUris[j]).Some? &&
                SameHost(HttpsHost(redirectUris[j]).value, HttpsHost(uri).value)
  }

  /** An administrator may set exactly the targets that are on the hosts of the client's own redirect targets. */
  lemma AdminMaySetExactly(uris: seq<string>, redirectUris: seq<string>)
    ensures AdminMaySet(uris, redirectUris) <==> forall i :: 0 <= i < |uris| ==> OnHostOf(uris[i], redirectUris)
  {
    var own := HostsOf(redirectUris);
    NoBadUriMeansWithin(uris, own);
    forall i | 0 <= i < |uris| && HttpsHost(uris[i]).Some?
      ensures HostIn(HttpsHost(uris[i]).value, own) <==> OnHostOf(uris[i], redirectUris)
    {
      var h := HttpsHost(uris[i]).value;
      if k :| 0 <= k < |own| && SameHost(own[k], h) {
        HostsOfMeans(redirectUris, own[k]);
      }
      if j :| 0 <= j < |redirectUris| && HttpsHost(redirectUris[j]).Some? &&
              SameHost(HttpsHost(redirectUris[j]).value, h) {
        HostsOfMeans(redirectUris, HttpsHost(redirectUris[j]).value);
        var k :| 0 <= k < |own| && own[k] == HttpsHost(redirectUris[j]).value;
        assert SameHost(own[k], h);
      }
    }
  }

  /** An edit can only point back at hosts the client's token allowed. */
  lemma AdminEditStaysWithin(uris: seq<string>, redirectUris: seq<string>, hosts: seq<string>)
    requires Within(redirectUris, hosts) && AdminMaySet(uris, redirectUris)
    ensures Within(uris, hosts)
  {
    NoBadUriMeansWithin(uris, HostsOf(redirectUris));
    HostsOfAreHosts(redirectUris, hosts);
    forall i | 0 <= i < |uris| ensures HostIn(HttpsHost(uris[i]).value, hosts) {
      var own := HostsOf(redirectUris);
      var j :| 0 <= j < |own| && SameHost(own[j], HttpsHost(uris[i]).value);
      assert own[j] in own;
      var k :| 0 <= k < |hosts| && SameHost(hosts[k], own[j]);
      assert SameHost(hosts[k], HttpsHost(uris[i]).value);
    }
  }
}
