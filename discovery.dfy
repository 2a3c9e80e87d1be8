/**
 * The discovery suite: ten checks over the provider metadata of section 3
 * of OpenID Connect Discovery 1.0, each one call of `report`.
 */
module Discovery {
  import opened Js
  import opened Suites

  /** The members of the provider metadata that the checks read. Every
      one may be missing; JSON `null` reads the same as a missing member. */
  datatype Metadata = Metadata(
    issuer: Option<string>,
    claimsSupported: Option<seq<string>>,
    codeChallengeMethodsSupported: Option<seq<string>>,
    grantTypesSupported: Option<seq<string>>,
    dpopSigningAlgValuesSupported: Option<seq<string>>,
    idTokenSigningAlgValuesSupported: Option<seq<string>>,
    registrationEndpoint: Option<string>,
    endSessionEndpoint: Option<string>,
    responseTypesSupported: Option<seq<string>>,
    scopesSupported: Option<seq<string>>)

  /** The message each check passes to `report`. A message is kept as
      which of the suite's messages it is; `Text` is the string the source
      writes, spelling included. */
  datatype Message =
    | IssuerPresent
    | WebidClaimIncluded
    | S256Included
    | AuthorizationCodeIncluded
    | DpopAlgorithmIncluded
    | RS256Included
    | RegistrationSupported
    | LogoutSupported
    | CodeResponseIncluded
    | WebidScopeIncluded
  {
    function Text(): string {
      match this
      case IssuerPresent => "Verify that the \"issuer\" field is present."
      case WebidClaimIncluded => "Verify that \"webid\" is included in the \"claims_supported\" field."
      case S256Included => "Verify that the \"S256\" algorithm is included in the \"code_challenge_methods_supported\" field."
      case AuthorizationCodeIncluded => "Verify that the \"authorization_code\" flow is included in the \"grant_types_supported\" field."
      case DpopAlgorithmIncluded => "Verify that the \"dpop_signing_alg_values_supported\" field includes either \"ES256\" or \"RS256\"."
      case RS256Included => "Verify that the \"RS256\" algorithm is included in the \"id_token_signing_alg_values_supported\" field."
      case RegistrationSupported => "Verify whether dynamic client registration is supported."
      case LogoutSupported => "Verify whether client-initiated logout is supported."
      case CodeResponseIncluded => "Verify that the \"code\" response is included in the \"response_types_supported\" field."
      case WebidScopeIncluded => "Verity that the \"webid\" scope is included in the \"scopes_supported\" field"
    }
  }

  /** `member?.includes(token)`. */
  function Includer(member: Option<seq<string>>, token: string): JsValue {
    Chain(member, (xs: seq<string>) => Includes(xs, token))
  }

  /** `metadata.issuer?.startsWith('http')`. */
  function DiscoveryIssuer(m: Metadata): (c: Invocation<Message>)
    ensures c.id == "MetadataIssuer" && !c.deferred
    ensures StatusClass(c.status) == Skip <==> m.issuer.None?
    ensures StatusClass(c.status) == Pass <==> m.issuer.Some? && "http" <= m.issuer.value
  {
    Invocation("MetadataIssuer",
      Chain(m.issuer, (s: string) => StartsWith(s, "http")),
      IssuerPresent, false)
  }

  /** `metadata.claims_supported?.includes('webid')`. */
  function DiscoveryClaimSupport(m: Metadata): (c: Invocation<Message>)
    ensures c.id == "MetadataWebidClaim" && !c.deferred
    ensures StatusClass(c.status) == Skip <==> m.claimsSupported.None?
    ensures StatusClass(c.status) == Pass <==>
      m.claimsSupported.Some? && "webid" in m.claimsSupported.value
  {
    Invocation("MetadataWebidClaim",
      Includer(m.claimsSupported, "webid"),
      WebidClaimIncluded, false)
  }

  /** `metadata.code_challenge_methods_supported?.includes('S256')`. */
  function DiscoveryPkceSupport(m: Metadata): (c: Invocation<Message>)
    ensures c.id == "MetadataProofKeyCodeExchange" && !c.deferred
    ensures StatusClass(c.status) == Skip <==> m.codeChallengeMethodsSupported.None?
    ensures StatusClass(c.status) == Pass <==>
      m.codeChallengeMethodsSupported.Some? && "S256" in m.codeChallengeMethodsSupported.value
  {
    Invocation("MetadataProofKeyCodeExchange",
      Includer(m.codeChallengeMethodsSupported, "S256"),
      S256Included, false)
  }

  /** `metadata.grant_types_supported?.includes('authorization_code')`. */
  function DiscoveryGrantTypeSupport(m: Metadata): (c: Invocation<Message>)
    ensures c.id == "MetadataAuthorizationCodeGrant" && !c.deferred
    ensures StatusClass(c.status) == Skip <==> m.grantTypesSupported.None?
    ensures StatusClass(c.status) == Pass <==>
      m.grantTypesSupported.Some? && "authorization_code" in m.grantTypesSupported.value
  {
    Invocation("MetadataAuthorizationCodeGrant",
      Includer(m.grantTypesSupported, "authorization_code"),
      AuthorizationCodeIncluded, false)
  }

  /** `metadata.dpop_signing_alg_values_supported?.some(alg =>
      ['ES256', 'RS256'].includes(alg))`. */
  function DiscoveryDpopSupport(m: Metadata): (c: Invocation<Message>)
    ensures c.id == "MetadataDpopAlgorithm" && !c.deferred
    ensures StatusClass(c.status) == Skip <==> m.dpopSigningAlgValuesSupported.None?
    ensures StatusClass(c.status) == Pass <==>
      m.dpopSigningAlgValuesSupported.Some? &&
      ("ES256" in m.dpopSigningAlgValuesSupported.value ||
       "RS256" in m.dpopSigningAlgValuesSupported.value)
  {
    Invocation("MetadataDpopAlgorithm",
      Chain(m.dpopSigningAlgValuesSupported, (xs: seq<string>) => SomeIn(xs, ["ES256", "RS256"])),
      DpopAlgorithmIncluded, false)
  }

  /** `metadata.id_token_signing_alg_values_supported?.includes('RS256')`. */
  function DiscoverySigningAlgSupport(m: Metadata): (c: Invocation<Message>)
    ensures c.id == "MetadataSigningAlgorithm" && !c.deferred
    ensures StatusClass(c.status) == Skip <==> m.idTokenSigningAlgValuesSupported.None?
    ensures StatusClass(c.status) == Pass <==>
      m.idTokenSigningAlgValuesSupported.Some? && "RS256" in m.idTokenSigningAlgValuesSupported.value
  {
    Invocation("MetadataSigningAlgorithm",
      Includer(m.idTokenSigningAlgValuesSupported, "RS256"),
      RS256Included, false)
  }

  /** `metadata.registration_endpoint != null`: a comparison, so a missing
      endpoint is a fail and never a skip. */
  function DiscoveryDynamicRegistrationSupport(m: Metadata): (c: Invocation<Message>)
    ensures c.id == "MetadataDynamicRegistration" && !c.deferred
    ensures StatusClass(c.status) != Skip
    ensures StatusClass(c.status) == Pass <==> m.registrationEndpoint.Some?
  {
    Invocation("MetadataDynamicRegistration",
      Boolean(m.registrationEndpoint != None),
      RegistrationSupported, false)
  }

  /** `metadata.end_session_endpoint != null`. */
  function DiscoveryLogoutSupport(m: Metadata): (c: Invocation<Message>)
    ensures c.id == "MetadataLogout" && !c.deferred
    ensures StatusClass(c.status) != Skip
    ensures StatusClass(c.status) == Pass <==> m.endSessionEndpoint.Some?
  {
    Invocation("MetadataLogout",
      Boolean(m.endSessionEndpoint != None),
      LogoutSupported, false)
  }

  /** `metadata.response_types_supported?.includes('code')`. */
  function DiscoveryResponseTypeSupport(m: Metadata): (c: Invocation<Message>)
    ensures c.id == "MetadataResponseType" && !c.deferred
    ensures StatusClass(c.status) == Skip <==> m.responseTypesSupported.None?
    ensures StatusClass(c.status) == Pass <==>
      m.responseTypesSupported.Some? && "code" in m.responseTypesSupported.value
  {
    Invocation("MetadataResponseType",
      Includer(m.responseTypesSupported, "code"),
      CodeResponseIncluded, false)
  }

  /** `metadata.scopes_supported?.includes('webid')`. */
  function DiscoveryScopeSupport(m: Metadata): (c: Invocation<Message>)
    ensures c.id == "MetadataWebidScope" && !c.deferred
    ensures StatusClass(c.status) == Skip <==> m.scopesSupported.None?
    ensures StatusClass(c.status) == Pass <==>
      m.scopesSupported.Some? && "webid" in m.scopesSupported.value
  {
    Invocation("MetadataWebidScope",
      Includer(m.scopesSupported, "webid"),
      WebidScopeIncluded, false)
  }

  /** The suite's check methods, in declaration order. */
  function Checks(m: Metadata): seq<Invocation<Message>> {
    [ DiscoveryIssuer(m),
      DiscoveryClaimSupport(m),
      DiscoveryPkceSupport(m),
      DiscoveryGrantTypeSupport(m),
      DiscoveryDpopSupport(m),
      DiscoverySigningAlgSupport(m),
      DiscoveryDynamicRegistrationSupport(m),
      DiscoveryLogoutSupport(m),
      DiscoveryResponseTypeSupport(m),
      DiscoveryScopeSupport(m) ]
  }

  /** The requirement identifiers of the suite, in declaration order. */
  const DiscoveryIds: seq<string> :=
    [ "MetadataIssuer", "MetadataWebidClaim", "MetadataProofKeyCodeExchange",
      "MetadataAuthorizationCodeGrant", "MetadataDpopAlgorithm", "MetadataSigningAlgorithm",
      "MetadataDynamicRegistration", "MetadataLogout", "MetadataResponseType",
      "MetadataWebidScope" ]

  /** Whatever the metadata, the checks report the ten identifiers in
      declaration order, and all of them immediately. */
  lemma ChecksInDeclarationOrder(m: Metadata)
    ensures |Checks(m)| == |DiscoveryIds|
    ensures forall k :: 0 <= k < |DiscoveryIds| ==> Checks(m)[k].id == DiscoveryIds[k]
    ensures forall k :: 0 <= k < |DiscoveryIds| ==> !Checks(m)[k].deferred
  {
    var c := Checks(m);
    assert c[0].id == DiscoveryIds[0];
    assert c[1].id == DiscoveryIds[1];
    assert c[2].id == DiscoveryIds[2];
    assert c[3].id == DiscoveryIds[3];
    assert c[4].id == DiscoveryIds[4];
    assert c[5].id == DiscoveryIds[5];
    assert c[6].id == DiscoveryIds[6];
    assert c[7].id == DiscoveryIds[7];
    assert c[8].id == DiscoveryIds[8];
    assert c[9].id == DiscoveryIds[9];
  }

  /** With a catalogue that knows the ten identifiers, a run throws
      nothing, leaves nothing pending and delivers ten records, one per
      check in declaration order, each the record `report` builds from
      that check's catalogue entry, outcome and message. */
  lemma RunReportsEveryCheck(spec: Catalogue, m: Metadata)
    requires forall k :: 0 <= k < |DiscoveryIds| ==> DiscoveryIds[k] in spec
    ensures DeliversEach(spec, Checks(m), RunAll(spec, Checks(m)))
    ensures Immediate(Checks(m)) == Checks(m)
    ensures RunAll(spec, Checks(m)).pending == []
    ensures |RunAll(spec, Checks(m)).reports| == |DiscoveryIds|
  {
    ChecksInDeclarationOrder(m);
    NoneDeferred(Checks(m));
    RunKnownIds(spec, Checks(m), DiscoveryIds);
  }

  /** `new DiscoverySuite(spec, metadata)`; the base suite holds the
      catalogue and the delivered records. */
  class DiscoverySuite {
    const base: TestSuite<Message>
    const metadata: Metadata

    constructor(spec: Catalogue, metadata: Metadata)
      ensures fresh(base) && base.spec == spec && base.reports == []
      ensures this.metadata == metadata
    {
      base := new TestSuite<Message>(spec);
      this.metadata := metadata;
    }

    /** `run()` on a discovery suite. */
    method Run() returns (thrown: Option<string>)
      modifies base
      ensures base.reports == old(base.reports) + RunAll(base.spec, Checks(metadata)).reports
      ensures thrown == RunAll(base.spec, Checks(metadata)).thrown
    {
      var pending;
      thrown, pending := base.Run(Checks(metadata));
    }
  }
}
