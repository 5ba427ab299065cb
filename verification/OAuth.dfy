/**
 * Authorization codes and tokens of lib/oauth.js kept in memory (RFC 6749 sections 4.1.2 and 6, RFC 7636
 * section 4.6). Random strings are names nobody has used before; the S256 challenge is any function.
 * An empty string stands for a parameter that is missing.
 */
module OAuth {
  import opened Options

  type Name = string

  datatype Config = Config(challengeOf: string -> string, codeTtlMs: nat, tokenTtlMs: nat, refreshTtlMs: nat)

  datatype CodeData = CodeData(
    clientId: string, redirectUri: string, challenge: string, scope: string,
    isApiKey: bool, boundKeyId: Option<string>, resource: Option<string>, expiresAt: int)

  datatype Kind = Access | Refresh

  datatype Token = Token(
    kind: Kind, clientId: string, scope: string,
    isApiKey: bool, boundKeyId: Option<string>, resource: Option<string>, expiresAt: int)

  datatype State = State(now: int, codes: map<Name, CodeData>, tokens: map<Name, Token>)

  datatype AuthorizeRequest = AuthorizeRequest(
    responseType: string, clientId: string, redirectUri: string, challenge: string, challengeMethod: string,
    scope: string, resource: string)

  /** What the key and client stores say about the caller. */
  datatype Registered = Registered(boundKeyId: Option<string>, redirectRegistered: bool)

  datatype ClientCheck = ClientCheck(isAccessKey: bool, isApiKey: bool, client: Option<Registered>, redirectAllowed: bool)

  datatype TokenRequest = TokenRequest(
    grantType: string, code: Name, redirectUri: string, verifier: string, refreshToken: Name,
    secretKeyId: Option<string>, resource: string)

  datatype Error =
    | UnsupportedResponseType | InvalidRequest | InvalidClient | UnsupportedGrantType | InvalidGrant

  datatype Grant = Grant(accessToken: Name, refreshToken: Name, scope: string)

  datatype Identity = Identity(clientId: string, scope: string, isApiKey: bool, boundKeyId: Option<string>)

  // ---------------------------------------------------------------- the endpoints

  function OrNone(s: string): Option<string> {
    if s == "" then None else Some(s)
  }

  function Or<T>(a: Option<T>, b: Option<T>): Option<T> {
    if a.Some? then a else b
  }

  /** A key-bound client, the plain client, or a refusal. */
  function ClientOf(q: AuthorizeRequest, k: ClientCheck): Result<(bool, Option<string>), Error> {
    if k.isAccessKey then (if k.redirectAllowed then Ok((false, None)) else Err(InvalidRequest))
    else if k.isApiKey then (if k.redirectAllowed then Ok((true, None)) else Err(InvalidRequest))
    else if k.client.None? then (if k.redirectAllowed then Ok((false, None)) else Err(InvalidClient))
    else if !k.client.value.redirectRegistered then Err(InvalidRequest)
    else Ok((k.client.value.boundKeyId.Some?, k.client.value.boundKeyId))
  }

  function DoAuthorize(c: Config, s: State, q: AuthorizeRequest, k: ClientCheck, code: Name): (State, Result<Name, Error>) {
    if q.responseType != "code" then (s, Err(UnsupportedResponseType))
    else if q.redirectUri == "" || q.challenge == "" || q.challengeMethod != "S256" then (s, Err(InvalidRequest))
    else
      match ClientOf(q, k)
      case Err(e) => (s, Err(e))
      case Ok(who) =>
        var data := CodeData(q.clientId, q.redirectUri, q.challenge, if q.scope == "" then "mcp" else q.scope,
                             who.0, who.1, OrNone(q.resource), s.now + c.codeTtlMs);
        (s.(codes := s.codes[code := data]), Ok(code))
  }

  /** A token issued on the strength of a code or of an older refresh token. */
  function Issue(kind: Kind, clientId: string, scope: string, isApiKey: bool, bound: Option<string>,
                 resource: Option<string>, q: TokenRequest, expiresAt: int): Token {
    var b := Or(q.secretKeyId, bound);
    Token(kind, clientId, scope, b.Some? || isApiKey, b, Or(OrNone(q.resource), resource), expiresAt)
  }

  function DoRefresh(c: Config, s: State, q: TokenRequest, fa: Name, fr: Name): (State, Result<Grant, Error>) {
    if q.refreshToken == "" then (s, Err(InvalidRequest))
    else if q.refreshToken !in s.tokens || !s.tokens[q.refreshToken].kind.Refresh? then (s, Err(InvalidGrant))
    else
      var t := s.tokens[q.refreshToken];
      if s.now > t.expiresAt then (s.(tokens := s.tokens - {q.refreshToken}), Err(InvalidGrant))
      else
        var a := Issue(Access, t.clientId, t.scope, t.isApiKey, t.boundKeyId, t.resource, q, s.now + c.tokenTtlMs);
        var r := Issue(Refresh, t.clientId, t.scope, t.isApiKey, t.boundKeyId, t.resource, q, s.now + c.refreshTtlMs);
        (s.(tokens := s.tokens[fa := a][fr := r] - {q.refreshToken}), Ok(Grant(fa, fr, t.scope)))
  }

  predicate Redeemable(c: Config, s: State, q: TokenRequest) {
    q.code in s.codes
    && s.now <= s.codes[q.code].expiresAt
    && s.codes[q.code].redirectUri == q.redirectUri
    && s.codes[q.code].challenge == c.challengeOf(q.verifier)
  }

  function DoRedeem(c: Config, s: State, q: TokenRequest, fa: Name, fr: Name): (State, Result<Grant, Error>) {
    if q.code == "" || q.verifier == "" then (s, Err(InvalidRequest))
    else
      var burnt := s.(codes := s.codes - {q.code});
      if !Redeemable(c, s, q) then (burnt, Err(InvalidGrant))
      else
        var d := s.codes[q.code];
        var a := Issue(Access, d.clientId, d.scope, d.isApiKey, d.boundKeyId, d.resource, q, s.now + c.tokenTtlMs);
        var r := Issue(Refresh, d.clientId, d.scope, d.isApiKey, d.boundKeyId, d.resource, q, s.now + c.tokenTtlMs * 24);
        (burnt.(tokens := s.tokens[fa := a][fr := r]), Ok(Grant(fa, fr, d.scope)))
  }

  function DoToken(c: Config, s: State, q: TokenRequest, fa: Name, fr: Name): (State, Result<Grant, Error>) {
    if q.grantType == "refresh_token" then DoRefresh(c, s, q, fa, fr)
    else if q.grantType != "authorization_code" then (s, Err(UnsupportedGrantType))
    else DoRedeem(c, s, q, fa, fr)
  }

  function DoValidate(s: State, token: Name): (State, Option<Identity>) {
    if token == "" || token !in s.tokens || !s.tokens[token].kind.Access? then (s, None)
    else
      var t := s.tokens[token];
      if s.now > t.expiresAt then (s.(tokens := s.tokens - {token}), None)
      else (s, Some(Identity(t.clientId, t.scope, t.isApiKey, t.boundKeyId)))
  }

  function DoCleanup(s: State): State {
    s.(codes := map x | x in s.codes && s.now <= s.codes[x].expiresAt :: s.codes[x],
       tokens := map x | x in s.tokens && s.now <= s.tokens[x].expiresAt :: s.tokens[x])
  }

  class OAuthServer {
    const c: Config
    var codes: map<Name, CodeData>
    var tokens: map<Name, Token>

    constructor (c: Config)
      ensures this.c == c && codes == map[] && tokens == map[]
    {
      this.c, codes, tokens := c, map[], map[];
    }

    function Snapshot(now: int): State
      reads this
    {
      State(now, codes, tokens)
    }

    method HandleAuthorize(q: AuthorizeRequest, k: ClientCheck, now: int, code: Name) returns (r: Result<Name, Error>)
      modifies this
      ensures (Snapshot(now), r) == DoAuthorize(c, old(Snapshot(now)), q, k, code)
    {
      if q.responseType != "code" { return Err(UnsupportedResponseType); }
      if q.redirectUri == "" { return Err(InvalidRequest); }
      if q.challenge == "" { return Err(InvalidRequest); }
      if q.challengeMethod != "S256" { return Err(InvalidRequest); }
      var isApiKeyClient, boundKeyId := false, None;
      var client: Option<Registered> := None;
      if !k.isAccessKey {
        isApiKeyClient := k.isApiKey;
        if !isApiKeyClient {
          client := k.client;
          if client.Some? {
            if client.value.boundKeyId.Some? {
              isApiKeyClient, boundKeyId := true, client.value.boundKeyId;
            }
          } else if !k.redirectAllowed {
            return Err(InvalidClient);
          }
        }
      }
      if client.Some? {
        if !client.value.redirectRegistered { return Err(InvalidRequest); }
      } else if !k.redirectAllowed {
        return Err(InvalidRequest);
      }
      var scope := if q.scope == "" then "mcp" else q.scope;
      codes := codes[code := CodeData(q.clientId, q.redirectUri, q.challenge, scope, isApiKeyClient, boundKeyId,
                                      OrNone(q.resource), now + c.codeTtlMs)];
      r := Ok(code);
    }

    method RefreshGrant(q: TokenRequest, now: int, fa: Name, fr: Name) returns (r: Result<Grant, Error>)
      modifies this
      ensures (Snapshot(now), r) == DoRefresh(c, old(Snapshot(now)), q, fa, fr)
    {
      if q.refreshToken == "" { return Err(InvalidRequest); }
      if q.refreshToken !in tokens || tokens[q.refreshToken].kind != Refresh { return Err(InvalidGrant); }
      var t := tokens[q.refreshToken];
      if now > t.expiresAt {
        tokens := tokens - {q.refreshToken};
        return Err(InvalidGrant);
      }
      var bound := if q.secretKeyId.Some? then q.secretKeyId else t.boundKeyId;
      var isApiKey := if bound.Some? then true else t.isApiKey;
      var resource := if q.resource != "" then Some(q.resource) else t.resource;
      tokens := tokens[fa := Token(Access, t.clientId, t.scope, isApiKey, bound, resource, now + c.tokenTtlMs)];
      tokens := tokens[fr := Token(Refresh, t.clientId, t.scope, isApiKey, bound, resource, now + c.refreshTtlMs)];
      tokens := tokens - {q.refreshToken};
      r := Ok(Grant(fa, fr, t.scope));
    }

    method HandleToken(q: TokenRequest, now: int, fa: Name, fr: Name) returns (r: Result<Grant, Error>)
      modifies this
      ensures (Snapshot(now), r) == DoToken(c, old(Snapshot(now)), q, fa, fr)
    {
      if q.grantType == "refresh_token" {
        r := RefreshGrant(q, now, fa, fr);
        return;
      }
      if q.grantType != "authorization_code" { return Err(UnsupportedGrantType); }
      if q.code == "" { return Err(InvalidRequest); }
      if q.verifier == "" { return Err(InvalidRequest); }
      if q.code !in codes {
        assert codes == codes - {q.code};
        return Err(InvalidGrant);
      }
      var d := codes[q.code];
      codes := codes - {q.code};
      if now > d.expiresAt { return Err(InvalidGrant); }
      if d.redirectUri != q.redirectUri { return Err(InvalidGrant); }
      if c.challengeOf(q.verifier) != d.challenge { return Err(InvalidGrant); }
      var bound := if q.secretKeyId.Some? then q.secretKeyId else d.boundKeyId;
      var isApiKey := if bound.Some? then true else d.isApiKey;
      var resource := if q.resource != "" then Some(q.resource) else d.resource;
      tokens := tokens[fa := Token(Access, d.clientId, d.scope, isApiKey, bound, resource, now + c.tokenTtlMs)];
      tokens := tokens[fr := Token(Refresh, d.clientId, d.scope, isApiKey, bound, resource, now + c.tokenTtlMs * 24)];
      r := Ok(Grant(fa, fr, d.scope));
    }

    method ValidateAccessToken(token: Name, now: int) returns (r: Option<Identity>)
      modifies this
      ensures (Snapshot(now), r) == DoValidate(old(Snapshot(now)), token)
    {
      if token == "" { return None; }
      if token !in tokens || tokens[token].kind != Access { return None; }
      var t := tokens[token];
      if now > t.expiresAt {
        tokens := tokens - {token};
        return None;
      }
      r := Some(Identity(t.clientId, t.scope, t.isApiKey, t.boundKeyId));
    }

    method CleanupExpiredOAuthData(now: int)
      modifies this
      ensures Snapshot(now) == DoCleanup(old(Snapshot(now)))
    {
      var todo := codes.Keys;
      while todo != {}
        invariant todo <= codes.Keys <= old(codes).Keys && tokens == old(tokens)
        invariant forall x :: x in codes ==> codes[x] == old(codes)[x] && (x in todo || now <= codes[x].expiresAt)
        invariant forall x :: x in old(codes) && now <= old(codes)[x].expiresAt ==> x in codes
      {
        var x :| x in todo;
        if now > codes[x].expiresAt { codes := codes - {x}; }
        todo := todo - {x};
      }
      todo := tokens.Keys;
      while todo != {}
        invariant todo <= tokens.Keys <= old(tokens).Keys && codes == DoCleanup(old(Snapshot(now))).codes
        invariant forall x :: x in tokens ==> tokens[x] == old(tokens)[x] && (x in todo || now <= tokens[x].expiresAt)
        invariant forall x :: x in old(tokens) && now <= old(tokens)[x].expiresAt ==> x in tokens
      {
        var x :| x in todo;
        if now > tokens[x].expiresAt { tokens := tokens - {x}; }
        todo := todo - {x};
      }
    }
  }

  // ---------------------------------------------------------------- one call

  /** A code is exchanged exactly when it is stored, alive, and the redirect and verifier match; trying burns it. */
  lemma RedeemIff(c: Config, s: State, q: TokenRequest, fa: Name, fr: Name)
    requires q.grantType == "authorization_code" && q.code != "" && q.verifier != ""
    ensures var (t, r) := DoToken(c, s, q, fa, fr);
            && (r.Ok? <==> Redeemable(c, s, q))
            && t.codes == s.codes - {q.code}
            && (r.Err? ==> t.tokens == s.tokens && !DoToken(c, t, q, fa, fr).1.Ok?)
            && (r.Ok? && fa != fr ==>
                  && fa in t.tokens && t.tokens[fa].kind.Access? && t.tokens[fa].expiresAt == s.now + c.tokenTtlMs
                  && fr in t.tokens && t.tokens[fr].kind.Refresh? && t.tokens[fr].expiresAt == s.now + 24 * c.tokenTtlMs
                  && t.tokens - {fa, fr} == s.tokens - {fa, fr})
  {
  }

  /** Whom the authorization endpoint lets through: a known client at its own redirect, anyone else at an allowed one. */
  predicate Admitted(k: ClientCheck) {
    if Registers(k) then k.client.value.redirectRegistered else k.redirectAllowed
  }

  /** The client goes by its registration: it is neither the server's key nor an API key itself. */
  predicate Registers(k: ClientCheck) {
    !k.isAccessKey && !k.isApiKey && k.client.Some?
  }

  /** A code is issued exactly for a complete S256 request of an admitted client, and binds what was asked for. */
  lemma AuthorizeIff(c: Config, s: State, q: AuthorizeRequest, k: ClientCheck, code: Name)
    ensures var (t, r) := DoAuthorize(c, s, q, k, code);
            && (r.Ok? <==> q.responseType == "code" && q.redirectUri != "" && q.challenge != ""
                           && q.challengeMethod == "S256" && Admitted(k))
            && (r.Err? ==> t == s)
            && (r.Ok? ==>
                  && r.value == code && t.tokens == s.tokens && t.codes - {code} == s.codes - {code}
                  && code in t.codes && t.codes[code].redirectUri == q.redirectUri && t.codes[code].challenge == q.challenge
                  && t.codes[code].clientId == q.clientId && t.codes[code].expiresAt == s.now + c.codeTtlMs
                  && t.codes[code].scope == (if q.scope == "" then "mcp" else q.scope)
                  && t.codes[code].resource == (if q.resource == "" then None else Some(q.resource))
                  && t.codes[code].boundKeyId == (if Registers(k) then k.client.value.boundKeyId else None)
                  && (t.codes[code].isApiKey <==> !k.isAccessKey && (k.isApiKey || t.codes[code].boundKeyId.Some?)))
  {
  }

  /** Which refusal: for the response type first, for an unknown client last, for the request itself otherwise. */
  lemma AuthorizeErrors(c: Config, s: State, q: AuthorizeRequest, k: ClientCheck, code: Name)
    ensures var r := DoAuthorize(c, s, q, k, code).1;
            var complete := q.redirectUri != "" && q.challenge != "" && q.challengeMethod == "S256";
            && (r == Err(UnsupportedResponseType) <==> q.responseType != "code")
            && (r == Err(InvalidClient) <==>
                  q.responseType == "code" && complete && !k.isAccessKey && !k.isApiKey && k.client.None? && !k.redirectAllowed)
            && (r.Err? ==> r.error in {UnsupportedResponseType, InvalidClient, InvalidRequest})
  {
  }

  lemma TokenErrors(c: Config, s: State, q: TokenRequest, fa: Name, fr: Name)
    ensures var r := DoToken(c, s, q, fa, fr).1;
            && (r == Err(UnsupportedGrantType) <==> q.grantType != "refresh_token" && q.grantType != "authorization_code")
            && (r == Err(InvalidRequest) <==>
                  if q.grantType == "refresh_token" then q.refreshToken == ""
                  else q.grantType == "authorization_code" && (q.code == "" || q.verifier == ""))
            && (r.Err? ==> r.error in {UnsupportedGrantType, InvalidRequest, InvalidGrant})
  {
  }

  /** A refresh token works exactly while it is stored and alive, and is gone afterwards either way. */
  lemma RefreshIff(c: Config, s: State, q: TokenRequest, fa: Name, fr: Name)
    requires q.grantType == "refresh_token" && q.refreshToken != "" && fa != q.refreshToken && fr != q.refreshToken
    ensures var (t, r) := DoToken(c, s, q, fa, fr);
            var stored := q.refreshToken in s.tokens && s.tokens[q.refreshToken].kind.Refresh?;
            && (r.Ok? <==> stored && s.now <= s.tokens[q.refreshToken].expiresAt)
            && t.codes == s.codes
            && (stored ==> q.refreshToken !in t.tokens)
            && (!r.Ok? && !stored ==> t == s)
  {
  }

  /** Client and scope are handed on; a secret rebinds the key, and a bound key makes it an API key's token. */
  predicate Carries(t: Token, q: TokenRequest, clientId: string, scope: string, isApiKey: bool, bound: Option<string>,
                    resource: Option<string>)
  {
    && t.clientId == clientId && t.scope == scope
    && t.boundKeyId == (if q.secretKeyId.Some? then q.secretKeyId else bound)
    && (t.isApiKey <==> isApiKey || t.boundKeyId.Some?)
    && t.resource == (if q.resource != "" then Some(q.resource) else resource)
  }

  /** The answer names two new tokens as what they are, and both work at once. */
  ghost predicate Answered(c: Config, s: State, t: State, g: Grant, used: set<Name>) {
    && g.accessToken != g.refreshToken && g.accessToken !in s.tokens && g.refreshToken !in s.tokens
    && g.accessToken in t.tokens && t.tokens[g.accessToken].kind.Access?
    && g.refreshToken in t.tokens && t.tokens[g.refreshToken].kind.Refresh?
    && t.tokens - {g.accessToken, g.refreshToken} == s.tokens - used
    && g.scope == t.tokens[g.accessToken].scope
    && DoValidate(t, g.accessToken).1.Some?
    && forall q: TokenRequest, fa: Name, fr: Name :: q.grantType == "refresh_token" && q.refreshToken == g.refreshToken ==> DoToken(c, t, q, fa, fr).1.Ok?
  }

  predicate FreshNames(s: State, fa: Name, fr: Name) {
    fa != "" && fr != "" && fa != fr && fa !in s.tokens && fr !in s.tokens
  }

  /** A code's tokens, as the answer names them. */
  lemma RedeemAnswer(c: Config, s: State, q: TokenRequest, fa: Name, fr: Name)
    requires q.grantType == "authorization_code" && FreshNames(s, fa, fr) && DoToken(c, s, q, fa, fr).1.Ok?
    ensures var (t, r) := DoToken(c, s, q, fa, fr);
            && Answered(c, s, t, r.value, {}) && q.code in s.codes
            && var d, a, b := s.codes[q.code], t.tokens[r.value.accessToken], t.tokens[r.value.refreshToken];
            && Carries(a, q, d.clientId, d.scope, d.isApiKey, d.boundKeyId, d.resource)
            && Carries(b, q, d.clientId, d.scope, d.isApiKey, d.boundKeyId, d.resource)
            && a.expiresAt == s.now + c.tokenTtlMs && b.expiresAt == s.now + 24 * c.tokenTtlMs
  {
    var t := DoToken(c, s, q, fa, fr).0;
    assert t.tokens - {fa, fr} == s.tokens - {};
  }

  /** A refresh token's successors, as the answer names them. */
  lemma RefreshAnswer(c: Config, s: State, q: TokenRequest, fa: Name, fr: Name)
    requires q.grantType == "refresh_token" && FreshNames(s, fa, fr) && DoToken(c, s, q, fa, fr).1.Ok?
    ensures var (t, r) := DoToken(c, s, q, fa, fr);
            && Answered(c, s, t, r.value, {q.refreshToken}) && q.refreshToken in s.tokens
            && var d, a, b := s.tokens[q.refreshToken], t.tokens[r.value.accessToken], t.tokens[r.value.refreshToken];
            && Carries(a, q, d.clientId, d.scope, d.isApiKey, d.boundKeyId, d.resource)
            && Carries(b, q, d.clientId, d.scope, d.isApiKey, d.boundKeyId, d.resource)
            && a.expiresAt == s.now + c.tokenTtlMs && b.expiresAt == s.now + c.refreshTtlMs
  {
    var t := DoToken(c, s, q, fa, fr).0;
    assert t.tokens - {fa, fr} == s.tokens - {q.refreshToken};
  }

  /** A token validates exactly if it is a stored access token that has not expired; an expired one is deleted. */
  lemma ValidateIff(s: State, token: Name)
    ensures var (t, r) := DoValidate(s, token);
            var stored := token != "" && token in s.tokens && s.tokens[token].kind.Access?;
            && (r.Some? <==> stored && s.now <= s.tokens[token].expiresAt)
            && (r.Some? ==>
                  var x := s.tokens[token];
                  && r.value.clientId == x.clientId && r.value.scope == x.scope
                  && r.value.isApiKey == x.isApiKey && r.value.boundKeyId == x.boundKeyId)
            && t.now == s.now && t.codes == s.codes
            && t.tokens == if stored && s.now > s.tokens[token].expiresAt then s.tokens - {token} else s.tokens
  {
  }

  /** The cleanup leaves exactly what has not expired. */
  lemma CleanupExact(s: State, x: Name)
    ensures var t := DoCleanup(s);
            && t.now == s.now
            && (x in t.codes <==> x in s.codes && s.now <= s.codes[x].expiresAt) && (x in t.codes ==> t.codes[x] == s.codes[x])
            && (x in t.tokens <==> x in s.tokens && s.now <= s.tokens[x].expiresAt) && (x in t.tokens ==> t.tokens[x] == s.tokens[x])
  {
  }

  // ---------------------------------------------------------------- whole runs

  datatype Event =
    | Authorize(q: AuthorizeRequest, k: ClientCheck, code: Name)
    | Exchange(t: TokenRequest, fa: Name, fr: Name)
    | Check(token: Name)
    | Cleanup
    | Tick(ms: nat)

  /**
   * The store with its history: codes ever issued, what was exchanged and what was burnt by trying, tokens ever
   * minted, what each was exchanged for, and the code it descends from.
   */
  datatype History = History(
    s: State, issued: map<Name, CodeData>, spent: multiset<Name>, tried: set<Name>,
    minted: map<Name, Token>, parent: map<Name, Name>, root: map<Name, Name>)

  predicate Unused(h: History, n: Name) {
    n !in h.issued && n !in h.root && n !in h.s.codes && n !in h.s.tokens && n != ""
  }

  predicate Enabled(h: History, e: Event) {
    match e
    case Authorize(_, _, code) => Unused(h, code)
    case Exchange(_, fa, fr) => Unused(h, fa) && Unused(h, fr) && fa != fr
    case _ => true
  }

  function Key(q: TokenRequest): Name {
    if q.grantType == "refresh_token" then q.refreshToken else q.code
  }

  /** What a token request uses up whether it succeeds or not. */
  function Burnt(h: History, q: TokenRequest): set<Name> {
    if q.grantType == "refresh_token" then
      if q.refreshToken != "" && q.refreshToken in h.s.tokens && h.s.tokens[q.refreshToken].kind.Refresh? then {q.refreshToken} else {}
    else if q.grantType == "authorization_code" && q.code != "" && q.verifier != "" && q.code in h.issued then {q.code}
    else {}
  }

  function Step(c: Config, h: History, e: Event): History
    requires Enabled(h, e)
  {
    match e
    case Authorize(q, k, code) =>
      var (s, r) := DoAuthorize(c, h.s, q, k, code);
      h.(s := s, issued := if r.Ok? then h.issued[code := s.codes[code]] else h.issued)
    case Exchange(q, fa, fr) =>
      var (s, r) := DoToken(c, h.s, q, fa, fr);
      var tried := h.tried + Burnt(h, q);
      if r.Err? then h.(s := s, tried := tried)
      else
        var key := Key(q);
        var from := if key in h.root then h.root[key] else key;
        History(s, h.issued, h.spent + multiset{key}, tried, h.minted[fa := s.tokens[fa]][fr := s.tokens[fr]],
                h.parent[fa := key][fr := key], h.root[fa := from][fr := from])
    case Check(token) => h.(s := DoValidate(h.s, token).0)
    case Cleanup => h.(s := DoCleanup(h.s))
    case Tick(ms) => h.(s := h.s.(now := h.s.now + ms))
  }

  predicate Allowed(c: Config, h: History, es: seq<Event>)
    decreases |es|
  {
    es == [] || (Enabled(h, es[0]) && Allowed(c, Step(c, h, es[0]), es[1..]))
  }

  function Run(c: Config, h: History, es: seq<Event>): History
    requires Allowed(c, h, es)
    decreases |es|
  {
    if es == [] then h else Run(c, Step(c, h, es[0]), es[1..])
  }

  function Start(t0: int): History {
    History(State(t0, map[], map[]), map[], multiset{}, {}, map[], map[], map[])
  }

  /** Same client and scope; an API key binding may appear or be replaced, but is never lost. */
  predicate Descends(d: CodeData, t: Token) {
    && t.clientId == d.clientId && t.scope == d.scope
    && (d.isApiKey ==> t.isApiKey) && (d.boundKeyId.Some? ==> t.boundKeyId.Some?)
    && (t.boundKeyId.Some? ==> t.isApiKey)
  }

  /** Everything the history promises about one name. */
  predicate SoundAt(h: History, x: Name) {
    && (x in h.s.codes ==> x in h.issued && h.s.codes[x] == h.issued[x] && h.spent[x] == 0)
    && (x in h.issued ==> x !in h.root && (h.issued[x].boundKeyId.Some? ==> h.issued[x].isApiKey))
    && (x in h.root ==> h.root[x] in h.issued && h.spent[h.root[x]] == 1)
    && (x in h.s.tokens ==> x in h.root && h.spent[x] == 0 && h.root[x] in h.issued
                            && Descends(h.issued[h.root[x]], h.s.tokens[x]))
    && h.spent[x] <= 1 && (x in h.spent ==> x in h.issued || x in h.root)
  }

  predicate LiveRefresh(h: History, x: Name) {
    x in h.s.tokens && h.s.tokens[x].kind.Refresh? && x in h.root
  }

  /** At most one live refresh token per code. */
  predicate OneRefresh(h: History, x: Name, y: Name) {
    LiveRefresh(h, x) && LiveRefresh(h, y) && h.root[x] == h.root[y] ==> x == y
  }

  /** What was tried is gone for good. */
  predicate GoneAt(h: History, x: Name) {
    x in h.tried ==> x !in h.s.codes && x !in h.s.tokens && (x in h.issued || x in h.root)
  }

  /** Client and scope pass from token to token, and an API key flag or binding is never dropped. */
  predicate HandsOn(t: Token, u: Token) {
    && u.clientId == t.clientId && u.scope == t.scope
    && (t.isApiKey ==> u.isApiKey) && (t.boundKeyId.Some? ==> u.boundKeyId.Some?)
  }

  /** Each token ever minted continues the code or the refresh token it was exchanged for. */
  predicate TracedAt(h: History, x: Name) {
    && (x in h.minted <==> x in h.root) && (x in h.minted <==> x in h.parent)
    && (x in h.s.tokens ==> x in h.minted && h.minted[x] == h.s.tokens[x])
    && (x in h.minted ==>
          var k := h.parent[x];
          if k in h.issued then Descends(h.issued[k], h.minted[x]) && h.root[x] == k
          else k in h.minted && k in h.root && HandsOn(h.minted[k], h.minted[x]) && h.root[x] == h.root[k])
  }

  /** What was issued and not tried is there until it expires; only codes and refresh tokens are tried. */
  predicate KeptAt(h: History, x: Name) {
    && (x in h.issued ==> x != "" && (x !in h.tried && h.s.now <= h.issued[x].expiresAt ==> x in h.s.codes))
    && (x in h.minted ==>
          && x != "" && (x in h.tried ==> h.minted[x].kind.Refresh?)
          && (x !in h.tried && h.s.now <= h.minted[x].expiresAt ==> x in h.s.tokens))
  }

  ghost predicate Inv(h: History) {
    && (forall x :: SoundAt(h, x)) && (forall x, y :: OneRefresh(h, x, y))
    && (forall x :: GoneAt(h, x)) && (forall x :: TracedAt(h, x)) && forall x :: KeptAt(h, x)
  }

  // ---------------------------------------------------------------- the two effects of a token request

  /** A request that uses up `k` and gets nothing. */
  function Burn(h: History, k: Name): History {
    h.(s := State(h.s.now, h.s.codes - {k}, h.s.tokens - {k}), tried := h.tried + {k})
  }

  /** A request that exchanges `k` for the access token `a` and the refresh token `r`. */
  function Mint(h: History, k: Name, fa: Name, a: Token, fr: Name, r: Token): History {
    var from := if k in h.root then h.root[k] else k;
    History(State(h.s.now, h.s.codes - {k}, (h.s.tokens - {k})[fa := a][fr := r]), h.issued, h.spent + multiset{k},
            h.tried + {k}, h.minted[fa := a][fr := r], h.parent[fa := k][fr := k], h.root[fa := from][fr := from])
  }

  /** `t` continues the stored code or refresh token `k`. */
  predicate Continues(h: History, k: Name, t: Token) {
    && (t.boundKeyId.Some? ==> t.isApiKey)
    && ((k in h.s.codes && Descends(h.s.codes[k], t))
        || (k in h.s.tokens && h.s.tokens[k].kind.Refresh? && HandsOn(h.s.tokens[k], t)))
  }

  /** The step is the exchange of `k` for the two tokens it stored. */
  predicate Exchanged(h: History, t: History, k: Name, fa: Name, fr: Name) {
    && fa in t.s.tokens && fr in t.s.tokens && t == Mint(h, k, fa, t.s.tokens[fa], fr, t.s.tokens[fr])
    && t.s.tokens[fa].kind.Access? && Continues(h, k, t.s.tokens[fa]) && Continues(h, k, t.s.tokens[fr])
  }

  predicate StoredRefresh(h: History, k: Name) {
    k in h.root && k in h.s.tokens && h.s.tokens[k].kind.Refresh?
  }

  lemma RedeemCases(c: Config, h: History, q: TokenRequest, fa: Name, fr: Name)
    requires Enabled(h, Exchange(q, fa, fr)) && SoundAt(h, q.code) && q.grantType != "refresh_token"
    ensures var t := Step(c, h, Exchange(q, fa, fr));
            if DoToken(c, h.s, q, fa, fr).1.Ok? then Exchanged(h, t, q.code, fa, fr)
            else t == h || (t == Burn(h, q.code) && q.code in h.issued)
  {
    assert h.tried + {} == h.tried;
    if q.code !in h.s.codes { assert h.s.codes - {q.code} == h.s.codes; }
    assert q.code !in h.issued || h.s.tokens - {q.code} == h.s.tokens;
  }

  lemma RefreshCases(c: Config, h: History, q: TokenRequest, fa: Name, fr: Name)
    requires Enabled(h, Exchange(q, fa, fr)) && SoundAt(h, q.refreshToken) && q.grantType == "refresh_token"
    ensures var t := Step(c, h, Exchange(q, fa, fr));
            if DoToken(c, h.s, q, fa, fr).1.Ok? then Exchanged(h, t, q.refreshToken, fa, fr)
            else t == h || (t == Burn(h, q.refreshToken) && StoredRefresh(h, q.refreshToken))
  {
    var k, s := q.refreshToken, DoToken(c, h.s, q, fa, fr).0;
    assert h.tried + {} == h.tried;
    if k !in h.s.codes { assert h.s.codes - {k} == h.s.codes; }
    if DoToken(c, h.s, q, fa, fr).1.Ok? {
      var a, r := s.tokens[fa], s.tokens[fr];
      assert h.s.tokens[fa := a][fr := r] - {k} == (h.s.tokens - {k})[fa := a][fr := r];
    }
  }

  /** A token request changes nothing, burns its key, or exchanges it. */
  lemma ExchangeCases(c: Config, h: History, q: TokenRequest, fa: Name, fr: Name)
    requires Enabled(h, Exchange(q, fa, fr)) && SoundAt(h, Key(q))
    ensures var t := Step(c, h, Exchange(q, fa, fr));
            if DoToken(c, h.s, q, fa, fr).1.Ok? then Exchanged(h, t, Key(q), fa, fr)
            else t == h || (t == Burn(h, Key(q)) && (Key(q) in h.issued || StoredRefresh(h, Key(q))))
  {
    hide Step, DoToken;
    if q.grantType == "refresh_token" {
      RefreshCases(c, h, q, fa, fr);
    } else {
      RedeemCases(c, h, q, fa, fr);
    }
  }

  lemma BurnKeepsAt(h: History, k: Name, x: Name)
    requires SoundAt(h, x) && GoneAt(h, x) && TracedAt(h, x) && KeptAt(h, x) && (k in h.issued || StoredRefresh(h, k))
    ensures SoundAt(Burn(h, k), x) && GoneAt(Burn(h, k), x) && TracedAt(Burn(h, k), x) && KeptAt(Burn(h, k), x)
  {
  }

  lemma MintSoundAt(h: History, k: Name, fa: Name, a: Token, fr: Name, r: Token, x: Name)
    requires Unused(h, fa) && Unused(h, fr) && fa != fr && Continues(h, k, a) && Continues(h, k, r)
    requires SoundAt(h, x) && SoundAt(h, k)
    requires x in h.root ==> SoundAt(h, h.root[x])
    requires k in h.root ==> SoundAt(h, h.root[k])
    ensures SoundAt(Mint(h, k, fa, a, fr, r), x)
  {
  }

  lemma MintTracedAt(h: History, k: Name, fa: Name, a: Token, fr: Name, r: Token, x: Name)
    requires Unused(h, fa) && Unused(h, fr) && fa != fr && Continues(h, k, a) && Continues(h, k, r)
    requires SoundAt(h, k) && TracedAt(h, k) && TracedAt(h, x) && GoneAt(h, x)
    ensures TracedAt(Mint(h, k, fa, a, fr, r), x) && GoneAt(Mint(h, k, fa, a, fr, r), x)
  {
  }

  lemma MintKeptAt(h: History, k: Name, fa: Name, a: Token, fr: Name, r: Token, x: Name)
    requires Unused(h, fa) && Unused(h, fr) && fa != fr && Continues(h, k, a)
    requires SoundAt(h, k) && TracedAt(h, k) && TracedAt(h, x) && GoneAt(h, x) && GoneAt(h, fa) && KeptAt(h, x)
    ensures KeptAt(Mint(h, k, fa, a, fr, r), x)
  {
  }

  lemma StepSoundAt(c: Config, h: History, e: Event, x: Name)
    requires Inv(h) && Enabled(h, e)
    ensures SoundAt(Step(c, h, e), x) && GoneAt(Step(c, h, e), x) && TracedAt(Step(c, h, e), x) && KeptAt(Step(c, h, e), x)
  {
    assert SoundAt(h, x) && GoneAt(h, x) && TracedAt(h, x) && KeptAt(h, x);
    if x in h.root { assert SoundAt(h, h.root[x]); }
    match e
    case Exchange(q, fa, fr) => ExchangeSoundAt(c, h, q, fa, fr, x);
    case _ =>
  }

  lemma ExchangeSoundAt(c: Config, h: History, q: TokenRequest, fa: Name, fr: Name, x: Name)
    requires Inv(h) && Enabled(h, Exchange(q, fa, fr))
    ensures var t := Step(c, h, Exchange(q, fa, fr)); SoundAt(t, x) && GoneAt(t, x) && TracedAt(t, x) && KeptAt(t, x)
  {
    var k := Key(q);
    assert SoundAt(h, x) && GoneAt(h, x) && TracedAt(h, x) && KeptAt(h, x) && SoundAt(h, k) && TracedAt(h, k) && GoneAt(h, fa);
    if x in h.root { assert SoundAt(h, h.root[x]); }
    if k in h.root { assert SoundAt(h, h.root[k]); }
    hide Step, DoToken;
    ExchangeCases(c, h, q, fa, fr);
    var t := Step(c, h, Exchange(q, fa, fr));
    if DoToken(c, h.s, q, fa, fr).1.Ok? {
      MintSoundAt(h, k, fa, t.s.tokens[fa], fr, t.s.tokens[fr], x);
      MintTracedAt(h, k, fa, t.s.tokens[fa], fr, t.s.tokens[fr], x);
      MintKeptAt(h, k, fa, t.s.tokens[fa], fr, t.s.tokens[fr], x);
    } else if k in h.issued || StoredRefresh(h, k) {
      BurnKeepsAt(h, k, x);
    }
  }

  lemma MintOneRefresh(h: History, k: Name, fa: Name, a: Token, fr: Name, r: Token, x: Name, y: Name)
    requires Unused(h, fa) && Unused(h, fr) && fa != fr && a.kind.Access? && Continues(h, k, a)
    requires SoundAt(h, x) && SoundAt(h, y) && SoundAt(h, k)
    requires OneRefresh(h, x, y) && OneRefresh(h, x, k) && OneRefresh(h, y, k)
    ensures OneRefresh(Mint(h, k, fa, a, fr, r), x, y)
  {
  }

  /** A live refresh token was live before, or is the new one and its predecessor (if any) is gone. */
  lemma StepOneRefresh(c: Config, h: History, e: Event, x: Name, y: Name)
    requires Inv(h) && Enabled(h, e)
    ensures OneRefresh(Step(c, h, e), x, y)
  {
    assert SoundAt(h, x) && SoundAt(h, y) && OneRefresh(h, x, y);
    match e
    case Exchange(q, fa, fr) =>
      var k := Key(q);
      assert SoundAt(h, k) && OneRefresh(h, x, k) && OneRefresh(h, y, k);
      hide Step, DoToken;
      ExchangeCases(c, h, q, fa, fr);
      var t := Step(c, h, e);
      if DoToken(c, h.s, q, fa, fr).1.Ok? {
        MintOneRefresh(h, k, fa, t.s.tokens[fa], fr, t.s.tokens[fr], x, y);
      }
    case _ =>
  }

  lemma StepKeepsInv(c: Config, h: History, e: Event)
    requires Inv(h) && Enabled(h, e)
    ensures Inv(Step(c, h, e))
  {
    forall x ensures SoundAt(Step(c, h, e), x) && GoneAt(Step(c, h, e), x) && TracedAt(Step(c, h, e), x) && KeptAt(Step(c, h, e), x) {
      StepSoundAt(c, h, e, x);
    }
    forall x, y ensures OneRefresh(Step(c, h, e), x, y) { StepOneRefresh(c, h, e, x, y); }
  }

  lemma {:induction false} RunKeepsInv(c: Config, h: History, es: seq<Event>)
    requires Inv(h) && Allowed(c, h, es)
    ensures Inv(Run(c, h, es))
    decreases |es|
  {
    if es != [] {
      StepKeepsInv(c, h, es[0]);
      RunKeepsInv(c, Step(c, h, es[0]), es[1..]);
    }
  }

  /**
   * Over every run a code and a refresh token are each exchanged at most once, every stored token carries its
   * code's client and scope and has lost no key binding, and no code has two refresh tokens alive.
   */
  lemma GrantsAreSingleUse(c: Config, t0: int, es: seq<Event>)
    requires Allowed(c, Start(t0), es)
    ensures var h := Run(c, Start(t0), es);
            && (forall x :: h.spent[x] <= 1)
            && (forall x, y :: OneRefresh(h, x, y))
            && forall x :: x in h.s.tokens ==> x in h.root && h.root[x] in h.issued && Descends(h.issued[h.root[x]], h.s.tokens[x])
  {
    RunKeepsInv(c, Start(t0), es);
    var h := Run(c, Start(t0), es);
    forall x ensures h.spent[x] <= 1 { assert SoundAt(h, x); }
    forall x | x in h.s.tokens ensures x in h.root && h.root[x] in h.issued && Descends(h.issued[h.root[x]], h.s.tokens[x]) {
      assert SoundAt(h, x);
    }
  }

  /** Replaying a code or refresh token that was exchanged once is refused ever after. */
  lemma SpentStaysSpent(c: Config, h: History, e: Event)
    requires Inv(h) && Enabled(h, e) && e.Exchange?
    requires Key(e.t) in h.spent
    ensures DoToken(c, h.s, e.t, e.fa, e.fr).1.Err?
  {
    assert SoundAt(h, Key(e.t));
  }

  /**
   * One attempt is all a code or live refresh token gets, successful or not: from then on it is stored no more, and
   * every request with it is refused.
   */
  lemma {:induction false} TriedStaysGone(c: Config, h: History, es: seq<Event>, x: Name)
    requires Inv(h) && Allowed(c, h, es) && x in h.tried
    ensures var t := Run(c, h, es);
            && x in t.tried && x !in t.s.codes && x !in t.s.tokens
            && forall q, fa, fr :: Key(q) == x ==> DoToken(c, t.s, q, fa, fr).1.Err?
    decreases |es|
  {
    if es == [] {
      assert GoneAt(h, x);
    } else {
      StepKeepsInv(c, h, es[0]);
      TriedStaysGone(c, Step(c, h, es[0]), es[1..], x);
    }
  }

  /** Over every run an access token validates exactly until it expires, as its code's client with its code's scope. */
  lemma AccessTokensLiveExactly(c: Config, t0: int, es: seq<Event>, x: Name)
    requires Allowed(c, Start(t0), es)
    ensures var h := Run(c, Start(t0), es);
            var r := DoValidate(h.s, x).1;
            && (r.Some? <==> x in h.minted && h.minted[x].kind.Access? && h.s.now <= h.minted[x].expiresAt)
            && (r.Some? ==>
                  && x in h.root && h.root[x] in h.issued
                  && r.value.clientId == h.issued[h.root[x]].clientId && r.value.scope == h.issued[h.root[x]].scope
                  && r.value.isApiKey == h.minted[x].isApiKey && r.value.boundKeyId == h.minted[x].boundKeyId)
  {
    RunKeepsInv(c, Start(t0), es);
    var h := Run(c, Start(t0), es);
    assert SoundAt(h, x) && TracedAt(h, x) && KeptAt(h, x);
    ValidateIff(h.s, x);
  }

  /** And a code or refresh token works exactly once, until it expires, for whom it was issued. */
  lemma GrantsLiveExactly(c: Config, t0: int, es: seq<Event>, q: TokenRequest, fa: Name, fr: Name)
    requires Allowed(c, Start(t0), es) && (q.grantType == "refresh_token" || q.grantType == "authorization_code")
    ensures var h := Run(c, Start(t0), es);
            DoToken(c, h.s, q, fa, fr).1.Ok? <==>
              && Key(q) !in h.tried
              && if q.grantType == "refresh_token" then
                   Key(q) in h.minted && h.minted[Key(q)].kind.Refresh? && h.s.now <= h.minted[Key(q)].expiresAt
                 else
                   && Key(q) in h.issued && h.s.now <= h.issued[Key(q)].expiresAt && q.verifier != ""
                   && h.issued[Key(q)].redirectUri == q.redirectUri && h.issued[Key(q)].challenge == c.challengeOf(q.verifier)
  {
    RunKeepsInv(c, Start(t0), es);
    var h, k := Run(c, Start(t0), es), Key(q);
    assert SoundAt(h, k) && TracedAt(h, k) && KeptAt(h, k) && GoneAt(h, k);
  }

  /** Tokens each minted for the one before. */
  predicate Chain(h: History, path: seq<Name>) {
    && (forall i :: 0 <= i < |path| ==> path[i] in h.minted && path[i] in h.parent)
    && forall i :: 0 < i < |path| ==> h.parent[path[i]] == path[i - 1]
  }

  /** However long a chain of refreshes is, nothing any of its tokens was bound to is lost further down. */
  lemma {:induction false} ChainHandsOn(h: History, path: seq<Name>, i: nat, j: nat)
    requires Inv(h) && Chain(h, path) && i <= j < |path|
    ensures HandsOn(h.minted[path[i]], h.minted[path[j]]) && path[i] in h.root && path[j] in h.root
    ensures h.root[path[i]] == h.root[path[j]]
  {
    assert TracedAt(h, path[j]) && SoundAt(h, path[i]);
    if i < j {
      ChainHandsOn(h, path, i, j - 1);
      assert h.parent[path[j]] == path[j - 1] && SoundAt(h, path[j - 1]) && TracedAt(h, path[j - 1]);
    }
  }

  /** The same over whole runs: no run of the server drops a binding anywhere along a chain of refreshes. */
  lemma BindingsSurviveRefreshes(c: Config, t0: int, es: seq<Event>, path: seq<Name>, i: nat, j: nat)
    requires Allowed(c, Start(t0), es) && Chain(Run(c, Start(t0), es), path) && i <= j < |path|
    ensures var h := Run(c, Start(t0), es);
            && HandsOn(h.minted[path[i]], h.minted[path[j]])
            && (path[j] in h.s.tokens ==> HandsOn(h.minted[path[i]], h.s.tokens[path[j]]))
  {
    RunKeepsInv(c, Start(t0), es);
    var h := Run(c, Start(t0), es);
    ChainHandsOn(h, path, i, j);
    assert TracedAt(h, path[j]);
  }

  /** Refreshing hands on client and scope, and keeps an API key flag and binding unless a secret rebinds it. */
  lemma RefreshHandsOn(c: Config, s: State, q: TokenRequest, fa: Name, fr: Name)
    requires q.grantType == "refresh_token" && fa != fr && fa != q.refreshToken && fr != q.refreshToken
    requires DoToken(c, s, q, fa, fr).1.Ok?
    ensures var (t, r) := DoToken(c, s, q, fa, fr);
            var was := s.tokens[q.refreshToken];
            && r.value.scope == was.scope
            && forall x :: x in {fa, fr} ==>
                 && x in t.tokens && t.tokens[x].clientId == was.clientId && t.tokens[x].scope == was.scope
                 && t.tokens[x].boundKeyId == (if q.secretKeyId.Some? then q.secretKeyId else was.boundKeyId)
                 && (t.tokens[x].isApiKey <==> was.isApiKey || t.tokens[x].boundKeyId.Some?)
  {
  }
}
