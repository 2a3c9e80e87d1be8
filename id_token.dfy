/**
 * The ID-token suite: eight checks over a token response and the decoded
 * body of its ID token (section 2 of OpenID Connect Core 1.0), one of them
 * reading the `Link` header served at the token's WebID.
 */
module IdToken {
  import opened Js
  import opened Suites
  import opened LinkHeader

  /** The `aud` claim: one audience string or an array of them. */
  datatype Audience = Single(value: string) | Several(values: seq<string>)

  /** The claims of the decoded ID-token body that the checks read; every
      one may be missing. `iat` and `exp` are whole seconds. */
  datatype IdTokenBody = IdTokenBody(
    iss: Option<string>,
    aud: Option<Audience>,
    webid: Option<string>,
    iat: Option<int>,
    exp: Option<int>)

  /** The token response: its `token_type` and the signed `id_token`. */
  datatype TokenResponse = TokenResponse(tokenType: Option<string>, idToken: string)

  /** How the WebID's `Link` header appears in the message: `links || 'n/a'`. */
  function LinksText(links: Option<string>): string
  {
    if links.Some? && links.value != "" then links.value else "n/a"
  }

  /** The message each check passes to `report`, kept as which message it
      is and the values its template literal interpolates; `Text` is the
      string the source builds. */
  datatype Message =
    | TokenTypeIsDpop
    | IssuerClaimMatches
    | PassesValidation
    | AudienceIncludesClient
    | WebidClaimPresent
    | IssuerRelationPresent(links: Option<string>)
    | IatNotInFuture(iat: Option<int>)
    | ExpNotInPast(exp: Option<int>)
  {
    function Text(): string {
      match this
      case TokenTypeIsDpop => "Verify that the token_type value equals \"DPoP\"."
      case IssuerClaimMatches =>
        "Verify that the token \"iss\" claim equals the \"issuer\" field in the server metadata."
      case PassesValidation => "Verify that the token passes JWT validation."
      case AudienceIncludesClient => "Verify that the \"aud\" claim includes the client_id."
      case WebidClaimPresent => "Verify that the \"webid\" claim is present in the ID Token."
      case IssuerRelationPresent(links) =>
        "Verify that the solid:oidcIssuer relation is present in the response link headers: ["
        + LinksText(links) + "]."
      case IatNotInFuture(iat) =>
        "Verify that the \"iat\" value is not in the future: " + OptionalNumberText(iat) + "."
      case ExpNotInPast(exp) =>
        "Verify that the 'exp' value is not in the past: " + OptionalNumberText(exp) + "."
    }
  }

  /** `this.token.token_type === 'DPoP'`. */
  function TokenType(token: TokenResponse): (c: Invocation<Message>)
    ensures c.id == "TokenType" && !c.deferred
    ensures StatusClass(c.status) != Skip
    ensures StatusClass(c.status) == Pass <==> token.tokenType == Some("DPoP")
  {
    Invocation("TokenType", Boolean(token.tokenType == Some("DPoP")), TokenTypeIsDpop, false)
  }

  /** `idToken.body.iss === this.issuer`. */
  function TokenIdIssuer(body: IdTokenBody, issuer: string): (c: Invocation<Message>)
    ensures c.id == "IdTokenIssuerClaim" && !c.deferred
    ensures StatusClass(c.status) != Skip
    ensures StatusClass(c.status) == Pass <==> body.iss == Some(issuer)
  {
    Invocation("IdTokenIssuerClaim", Boolean(body.iss == Some(issuer)), IssuerClaimMatches, false)
  }

  /** The report made once `JOSE.validate` resolves to `validation`: the
      resolved value is the outcome as it is. */
  function TokenValidation(validation: JsValue): (c: Invocation<Message>)
    ensures c.id == "IdTokenValidation" && c.deferred
    ensures StatusClass(c.status) == Pass <==> validation == Boolean(true)
    ensures StatusClass(c.status) == Fail <==> validation == Boolean(false)
  {
    Invocation("IdTokenValidation", validation, PassesValidation, true)
  }

  /** `idToken.body.aud === this.clientId`: strict equality, so an array
      audience fails even when it lists the client. */
  function TokenAudience(body: IdTokenBody, clientId: string): (c: Invocation<Message>)
    ensures c.id == "IdTokenAudienceClaim" && !c.deferred
    ensures StatusClass(c.status) != Skip
    ensures StatusClass(c.status) == Pass <==> body.aud == Some(Single(clientId))
    ensures body.aud.Some? && body.aud.value.Several? ==> StatusClass(c.status) == Fail
  {
    Invocation("IdTokenAudienceClaim", Boolean(body.aud == Some(Single(clientId))),
      AudienceIncludesClient, false)
  }

  /** `idToken.body.webid?.startsWith('https://')`. */
  function TokenWebId(body: IdTokenBody): (c: Invocation<Message>)
    ensures c.id == "IdTokenWebidClaim" && !c.deferred
    ensures StatusClass(c.status) == Skip <==> body.webid.None?
    ensures StatusClass(c.status) == Pass <==>
      body.webid.Some? && "https://" <= body.webid.value
  {
    Invocation("IdTokenWebidClaim",
      Chain(body.webid, (s: string) => StartsWith(s, "https://")), WebidClaimPresent, false)
  }

  /** `pieces.map(l => Link.parse(l))`. */
  function ParseAll(pieces: seq<string>): (links: seq<Link>)
    ensures |links| == |pieces|
  {
    Map(pieces, Parse)
  }

  /** `map` parses every piece, and keeps the order. */
  lemma ParseAllEach(pieces: seq<string>)
    ensures forall k :: 0 <= k < |pieces| ==> ParseAll(pieces)[k] == Parse(pieces[k])
  {
    MapEach(pieces, Parse);
  }

  /** A parsed link whose `rel` is `rel` and whose URI is `uri`. */
  predicate Relates(link: Link, rel: string, uri: string) {
    link.Rel() == Some(rel) && link.uri == uri
  }

  /** `.filter(l => l.rel === rel).map(l => l.uri)`, in header order. */
  function RelUris(links: seq<Link>, rel: string): (uris: seq<string>)
    ensures |uris| <= |links|
  {
    if links == [] then []
    else
      var rest := RelUris(links[1..], rel);
      if links[0].Rel() == Some(rel) then [links[0].uri] + rest else rest
  }

  /** The filter and the map keep exactly the URIs of the links with
      relation type `rel`. */
  lemma {:induction false} RelUrisNamed(links: seq<Link>, rel: string)
    ensures forall u :: u in RelUris(links, rel) <==> exists k :: 0 <= k < |links| && Relates(links[k], rel, u)
  {
    if links != [] {
      RelUrisNamed(links[1..], rel);
      assert forall k :: 1 <= k < |links| ==> links[1..][k - 1] == links[k];
    }
  }

  /** The outcome of the WebID check, for any relation type `rel`. */
  function HeaderNames(h: string, rel: string, iss: Option<string>): bool {
    iss.Some? && Includes(RelUris(HeaderLinks(h), rel), iss.value)
  }

  /** The report made once the WebID's response headers are in: `links` is
      the `Link` header, `None` when the response has none. A missing
      header stops the optional chain, so the outcome is `undefined`. The
      URIs are compared with the token's own `iss`. */
  function TokenDerefWebIdHeaders(body: IdTokenBody, links: Option<string>): (c: Invocation<Message>)
    ensures c.id == "WebidHeaderDiscovery" && c.deferred
    ensures StatusClass(c.status) == Skip <==> links.None?
    ensures c.message == IssuerRelationPresent(links)
  {
    var status := match links
      case None => Undefined
      case Some(h) => Boolean(HeaderNames(h, OidcIssuerRel, body.iss));
    Invocation("WebidHeaderDiscovery", status, IssuerRelationPresent(links), true)
  }

  /** The links the WebID check reads from the header `h`:
      `h.split(/,\s*(?:<)/).map(l => Link.parse(l))`. */
  function HeaderLinks(h: string): (links: seq<Link>)
    ensures |links| == |SplitLinks(h)|
  {
    ParseAll(SplitLinks(h))
  }

  /** With a `Link` header `h`, the WebID check passes exactly when one of
      the links parsed from `h` is an OIDC-issuer relation whose URI is the
      token's own `iss`; the configured issuer plays no part. */
  lemma WebIdHeaderOutcome(body: IdTokenBody, h: string)
    ensures StatusClass(TokenDerefWebIdHeaders(body, Some(h)).status) == Pass <==>
      body.iss.Some? &&
      exists k :: 0 <= k < |HeaderLinks(h)| && Relates(HeaderLinks(h)[k], OidcIssuerRel, body.iss.value)
  {
    RelUrisNamed(HeaderLinks(h), OidcIssuerRel);
  }

  /** A header split into the pieces `p0` and `p1`, which parse to `l0` and
      `l1`, names `i` as a `rel` relation exactly when one of the two
      links does. */
  lemma TwoPiecesName(h: string, p0: string, p1: string, l0: Link, l1: Link, rel: string, i: string)
    requires SplitLinks(h) == [p0, p1] && Parse(p0) == l0 && Parse(p1) == l1
    ensures HeaderNames(h, rel, Some(i)) <==> Relates(l0, rel, i) || Relates(l1, rel, i)
  {
    ParseTwo(p0, p1, l0, l1);
    TwoLinksName(HeaderLinks(h), l0, l1, rel, i);
  }

  lemma ParseTwo(p0: string, p1: string, l0: Link, l1: Link)
    requires Parse(p0) == l0 && Parse(p1) == l1
    ensures ParseAll([p0, p1]) == [l0, l1]
  {
    var ps := [p0, p1];
    MapEach(ps, Parse);
    assert ParseAll(ps)[0] == l0 && ParseAll(ps)[1] == l1;
  }

  lemma TwoLinksName(links: seq<Link>, l0: Link, l1: Link, rel: string, i: string)
    requires links == [l0, l1]
    ensures Includes(RelUris(links, rel), i) <==> Relates(l0, rel, i) || Relates(l1, rel, i)
  {
    RelUrisNamed(links, rel);
    assert Relates(l0, rel, i) ==> Relates(links[0], rel, i);
    assert Relates(l1, rel, i) ==> Relates(links[1], rel, i);
  }

  /** The message names the header it searched, and `n/a` when there is
      none or it is empty, because `||` falls back on a falsy string. */
  lemma WebIdMessage(links: Option<string>)
    ensures links.None? || links == Some("") ==>
      IssuerRelationPresent(links).Text()
        == "Verify that the solid:oidcIssuer relation is present in the response link headers: [n/a]."
    ensures links.Some? && links.value != "" ==>
      IssuerRelationPresent(links).Text()
        == "Verify that the solid:oidcIssuer relation is present in the response link headers: ["
           + links.value + "]."
  {
  }

  /** `idToken.body.iat < Date.now() / 1000 + 60`, with the current time
      `nowMs` in whole milliseconds. A missing `iat` compares false. */
  function TokenIatClaim(body: IdTokenBody, nowMs: int): (c: Invocation<Message>)
    ensures c.id == "IdTokenIatClaim" && !c.deferred
    ensures StatusClass(c.status) != Skip
    ensures StatusClass(c.status) == Pass <==>
      body.iat.Some? && (body.iat.value as real) < (nowMs as real) / 1000.0 + 60.0
  {
    Invocation("IdTokenIatClaim", Boolean(body.iat.Some? && 1000 * body.iat.value < nowMs + 60000),
      IatNotInFuture(body.iat), false)
  }

  /** `idToken.body.exp > Date.now() / 1000`: strictly in the future, with
      no allowance. A missing `exp` compares false. */
  function TokenExpClaim(body: IdTokenBody, nowMs: int): (c: Invocation<Message>)
    ensures c.id == "IdTokenExpClaim" && !c.deferred
    ensures StatusClass(c.status) != Skip
    ensures StatusClass(c.status) == Pass <==>
      body.exp.Some? && (body.exp.value as real) > (nowMs as real) / 1000.0
  {
    Invocation("IdTokenExpClaim", Boolean(body.exp.Some? && 1000 * body.exp.value > nowMs),
      ExpNotInPast(body.exp), false)
  }

  /** What the suite's deferred work and the clock supply: the value
      `JOSE.validate` resolves to, the WebID's `Link` header (`None` when
      absent) and `Date.now()` in whole milliseconds. */
  datatype Resolved = Resolved(validation: JsValue, links: Option<string>, nowMs: int)

  /** The suite's check methods, in declaration order. */
  function Checks(token: TokenResponse, body: IdTokenBody, clientId: string, issuer: string,
                  resolved: Resolved): seq<Invocation<Message>>
  {
    [ TokenType(token),
      TokenIdIssuer(body, issuer),
      TokenValidation(resolved.validation),
      TokenAudience(body, clientId),
      TokenWebId(body),
      TokenDerefWebIdHeaders(body, resolved.links),
      TokenIatClaim(body, resolved.nowMs),
      TokenExpClaim(body, resolved.nowMs) ]
  }

  /** The requirement identifiers of the suite, in declaration order. */
  const IdTokenIds: seq<string> :=
    [ "TokenType", "IdTokenIssuerClaim", "IdTokenValidation", "IdTokenAudienceClaim",
      "IdTokenWebidClaim", "WebidHeaderDiscovery", "IdTokenIatClaim", "IdTokenExpClaim" ]

  /** The checks report the eight identifiers in declaration order; the
      third and the sixth report from a promise callback. */
  lemma ChecksInDeclarationOrder(token: TokenResponse, body: IdTokenBody, clientId: string,
                                 issuer: string, resolved: Resolved)
    ensures |Checks(token, body, clientId, issuer, resolved)| == |IdTokenIds|
    ensures forall k :: 0 <= k < |IdTokenIds| ==>
      Checks(token, body, clientId, issuer, resolved)[k].id == IdTokenIds[k]
    ensures forall k :: 0 <= k < |IdTokenIds| ==>
      (Checks(token, body, clientId, issuer, resolved)[k].deferred <==> k == 2 || k == 5)
  {
    var c := Checks(token, body, clientId, issuer, resolved);
    assert c[0].id == IdTokenIds[0];
    assert c[1].id == IdTokenIds[1];
    assert c[2].id == IdTokenIds[2];
    assert c[3].id == IdTokenIds[3];
    assert c[4].id == IdTokenIds[4];
    assert c[5].id == IdTokenIds[5];
    assert c[6].id == IdTokenIds[6];
    assert c[7].id == IdTokenIds[7];
  }

  /** The six checks that report at once, and the two that report from a
      promise callback, each in declaration order. */
  lemma ChecksByKind(token: TokenResponse, body: IdTokenBody, clientId: string,
                     issuer: string, resolved: Resolved)
    ensures Immediate(Checks(token, body, clientId, issuer, resolved)) ==
      [ TokenType(token), TokenIdIssuer(body, issuer), TokenAudience(body, clientId),
        TokenWebId(body), TokenIatClaim(body, resolved.nowMs), TokenExpClaim(body, resolved.nowMs) ]
    ensures Deferred(Checks(token, body, clientId, issuer, resolved)) ==
      [ TokenValidation(resolved.validation), TokenDerefWebIdHeaders(body, resolved.links) ]
  {
    ChecksInDeclarationOrder(token, body, clientId, issuer, resolved);
    SplitEight(Checks(token, body, clientId, issuer, resolved));
  }

  /** Eight checks of which the third and the sixth are deferred. */
  lemma SplitEight(c: seq<Invocation<Message>>)
    requires |c| == 8
    requires forall k :: 0 <= k < 8 ==> (c[k].deferred <==> k == 2 || k == 5)
    ensures Immediate(c) == [c[0], c[1], c[3], c[4], c[6], c[7]]
    ensures Deferred(c) == [c[2], c[5]]
  {
    var t7 := [c[7]];
    var t6 := [c[6]] + t7;
    var t5 := [c[5]] + t6;
    var t4 := [c[4]] + t5;
    var t3 := [c[3]] + t4;
    var t2 := [c[2]] + t3;
    var t1 := [c[1]] + t2;
    assert c == [c[0]] + t1;
    assert t7 == [c[7]] + [];
    SplitCons(c[7], []);
    SplitCons(c[6], t7);
    SplitCons(c[5], t6);
    SplitCons(c[4], t5);
    SplitCons(c[3], t4);
    SplitCons(c[2], t3);
    SplitCons(c[1], t2);
    SplitCons(c[0], t1);
  }

  /** With a catalogue that knows the eight identifiers, a run throws
      nothing, delivers the six immediate records in declaration order
      and leaves the validation and the WebID check pending. */
  lemma RunReportsEveryCheck(spec: Catalogue, token: TokenResponse, body: IdTokenBody,
                             clientId: string, issuer: string, resolved: Resolved)
    requires forall k :: 0 <= k < |IdTokenIds| ==> IdTokenIds[k] in spec
    ensures DeliversEach(spec, Checks(token, body, clientId, issuer, resolved),
                         RunAll(spec, Checks(token, body, clientId, issuer, resolved)))
    ensures |RunAll(spec, Checks(token, body, clientId, issuer, resolved)).reports| == 6
    ensures RunAll(spec, Checks(token, body, clientId, issuer, resolved)).pending ==
      [ TokenValidation(resolved.validation), TokenDerefWebIdHeaders(body, resolved.links) ]
  {
    ChecksInDeclarationOrder(token, body, clientId, issuer, resolved);
    ChecksByKind(token, body, clientId, issuer, resolved);
    RunKnownIds(spec, Checks(token, body, clientId, issuer, resolved), IdTokenIds);
  }

  /** A token issued 30 seconds ahead of the clock is within the
      allowance; one issued two minutes ahead is not. */
  lemma IatAllowance(body: IdTokenBody, t: int)
    ensures StatusClass(TokenIatClaim(body.(iat := Some(t + 30)), 1000 * t).status) == Pass
    ensures StatusClass(TokenIatClaim(body.(iat := Some(t + 120)), 1000 * t).status) == Fail
    ensures StatusClass(TokenIatClaim(body.(iat := None), 1000 * t).status) == Fail
  {
  }

  /** A token that expires at the current second has expired. */
  lemma ExpIsStrict(body: IdTokenBody, t: int)
    ensures StatusClass(TokenExpClaim(body.(exp := Some(t)), 1000 * t).status) == Fail
    ensures StatusClass(TokenExpClaim(body.(exp := Some(t + 1)), 1000 * t).status) == Pass
    ensures StatusClass(TokenExpClaim(body.(exp := None), 1000 * t).status) == Fail
  {
  }

  /** A header holding the single link `<u>; rel="x"` passes exactly when
      `x` is the OIDC-issuer relation type and the token's `iss` is `u`. */
  lemma SingleLinkHeader(body: IdTokenBody, u: string, x: string)
    requires ',' !in u && ';' !in u
    requires ',' !in x && ';' !in x && '=' !in x
    ensures StatusClass(TokenDerefWebIdHeaders(body, Some(Format(u, "rel", x))).status) == Pass
      <==> x == OidcIssuerRel && body.iss == Some(u)
  {
    if body.iss.Some? {
      OneLinkNames(u, x, OidcIssuerRel, body.iss.value);
    }
  }

  /** `SingleLinkHeader` for any relation type. */
  lemma OneLinkNames(u: string, x: string, rel: string, i: string)
    requires ',' !in u && ';' !in u
    requires ',' !in x && ';' !in x && '=' !in x
    ensures HeaderNames(Format(u, "rel", x), rel, Some(i)) <==> x == rel && i == u
  {
    var h := Format(u, "rel", x);
    SplitFormatted(u, "rel", x);
    ParseFormat(u, "rel", x);
    OnePieceName(h, Link(u, map["rel" := x]), rel, i);
  }

  /** A header that is the single piece `h`, which parses to `l`. */
  lemma OnePieceName(h: string, l: Link, rel: string, i: string)
    requires SplitLinks(h) == [h] && Parse(h) == l
    ensures HeaderNames(h, rel, Some(i)) <==> Relates(l, rel, i)
  {
    assert HeaderLinks(h) == [l] by {
      assert [h][1..] == [];
    }
    RelUrisNamed(HeaderLinks(h), rel);
    assert Relates(l, rel, i) ==> Relates(HeaderLinks(h)[0], rel, i);
  }

  /** What remains of `<u>; rel="x"` once the header split has taken its
      `<`. */
  function OpenedLink(u: string, x: string): string {
    u + ">; rel=\"" + x + "\""
  }

  /** A header of two links, `<a>; rel="x", <b>; rel="y"`: both are found,
      although the split leaves the second without its `<`, and the check
      passes exactly when one of them is an OIDC-issuer relation to the
      token's `iss`. */
  lemma TwoLinkHeader(body: IdTokenBody, a: string, x: string, b: string, y: string, h: string)
    requires ',' !in a && ';' !in a && ',' !in b && ';' !in b
    requires b != [] && b[0] != '<' && !IsSpace(b[0])
    requires ',' !in x && ';' !in x && '=' !in x
    requires ',' !in y && ';' !in y && '=' !in y
    requires h == Format(a, "rel", x) + ", " + Format(b, "rel", y)
    ensures StatusClass(TokenDerefWebIdHeaders(body, Some(h)).status) == Pass
      <==> body.iss.Some? &&
           ((x == OidcIssuerRel && body.iss.value == a) || (y == OidcIssuerRel && body.iss.value == b))
  {
    if body.iss.Some? {
      TwoLinkNames(a, x, b, y, h, OidcIssuerRel, body.iss.value);
    }
  }

  /** `TwoLinkHeader` for any relation type. */
  lemma TwoLinkNames(a: string, x: string, b: string, y: string, h: string, rel: string, i: string)
    requires ',' !in a && ';' !in a && ',' !in b && ';' !in b
    requires b != [] && b[0] != '<' && !IsSpace(b[0])
    requires ',' !in x && ';' !in x && '=' !in x
    requires ',' !in y && ';' !in y && '=' !in y
    requires h == Format(a, "rel", x) + ", " + Format(b, "rel", y)
    ensures HeaderNames(h, rel, Some(i)) <==> (x == rel && i == a) || (y == rel && i == b)
  {
    TwoLinkSplit(a, x, b, y);
    ParseFormat(a, "rel", x);
    OpenedLinkParses(b, y);
    TwoPiecesName(h, Format(a, "rel", x), OpenedLink(b, y), Link(a, map["rel" := x]), Link(b, map["rel" := y]), rel, i);
  }

  lemma TwoLinkSplit(a: string, x: string, b: string, y: string)
    requires ',' !in a && ',' !in x && ',' !in b && ',' !in y
    ensures SplitLinks(Format(a, "rel", x) + ", " + Format(b, "rel", y)) == [Format(a, "rel", x), OpenedLink(b, y)]
  {
    var first := Format(a, "rel", x);
    var second := OpenedLink(b, y);
    assert first + ", " + Format(b, "rel", y) == first + "," + " " + "<" + second by {
      assert ">; " + "rel" + "=\"" == ">; rel=\"";
      assert Format(b, "rel", y) == "<" + second;
    }
    assert AllSpaces(" ");
    SplitLinksCons(first, " ", second);
    assert ',' !in second;
    SplitLinksSingle(second);
  }

  lemma OpenedLinkParses(u: string, x: string)
    requires ';' !in u && u != [] && u[0] != '<' && !IsSpace(u[0])
    requires ';' !in x && '=' !in x
    ensures Parse(OpenedLink(u, x)) == Link(u, map["rel" := x])
  {
    OpenedLinkUri(u, x, OpenedLink(u, x));
    OpenedLinkParams(u, x, OpenedLink(u, x));
  }

  lemma OpenedLinkUri(u: string, x: string, v: string)
    requires ';' !in u && u != [] && u[0] != '<' && !IsSpace(u[0])
    requires v == OpenedLink(u, x)
    ensures Parse(v).uri == u
  {
    var rest := " rel=\"" + x + "\"";
    assert v == u + ">" + ";" + rest;
    ParseUnopenedUri(u, rest);
  }

  lemma OpenedLinkParams(u: string, x: string, v: string)
    requires ';' !in u && ';' !in x && '=' !in x && v == OpenedLink(u, x)
    ensures Parse(v).params == map["rel" := x]
  {
    assert v == u + ">" + ";" + " " + "rel=\"" + x + "\"" by {
      assert ">; rel=\"" == ">" + ";" + " " + "rel=\"";
    }
    assert AllSpaces(" ");
    QuotedRel(u + ">", " ", x);
  }

  /** `new IDTokenSuite(spec, clientId, issuer, token)`; `body` is what
      `JOSE.parse` decodes from `token.id_token`. */
  class IdTokenSuite {
    const base: TestSuite<Message>
    const clientId: string
    const issuer: string
    const token: TokenResponse
    const body: IdTokenBody

    constructor(spec: Catalogue, clientId: string, issuer: string, token: TokenResponse,
                body: IdTokenBody)
      ensures fresh(base) && base.spec == spec && base.reports == []
      ensures this.clientId == clientId && this.issuer == issuer
      ensures this.token == token && this.body == body
    {
      base := new TestSuite<Message>(spec);
      this.clientId := clientId;
      this.issuer := issuer;
      this.token := token;
      this.body := body;
    }

    /** `run()` on an ID-token suite, with the deferred results and the
        clock as `resolved`. */
    method Run(resolved: Resolved) returns (thrown: Option<string>, pending: seq<Invocation<Message>>)
      modifies base
      ensures base.reports ==
        old(base.reports) + RunAll(base.spec, Checks(token, body, clientId, issuer, resolved)).reports
      ensures pending == RunAll(base.spec, Checks(token, body, clientId, issuer, resolved)).pending
      ensures thrown == RunAll(base.spec, Checks(token, body, clientId, issuer, resolved)).thrown
    {
      thrown, pending := base.Run(Checks(token, body, clientId, issuer, resolved));
    }

    /** A promise callback of the suite running: `call` reports. */
    method Settle(call: Invocation<Message>)
      modifies base
      ensures call.id in base.spec ==>
        base.reports == old(base.reports) + [MakeReport(base.spec, call.id, call.status, call.message).value]
      ensures call.id !in base.spec ==> base.reports == old(base.reports)
    {
      base.Settle(call);
    }
  }
}
