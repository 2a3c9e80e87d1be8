# Solid-OIDC conformance checks, modelled in Dafny

The Solid-OIDC test suite checks an OpenID provider against the Solid-OIDC
requirements. It runs in a browser page. Each suite is handed a catalogue of
requirements, keyed by identifier, and the data to judge:

- `DiscoverySuite` judges the provider metadata of OpenID Connect Discovery 1.0,
  section 3.
- `IDTokenSuite` judges a token response and the claims of its ID token
  (OpenID Connect Core 1.0, section 2).

`run()` calls every check method of a suite once, in declaration order. Each
check computes an outcome: `true` is a pass, `false` a fail and anything else a
skip. It then calls `report(id, outcome, message)`. `report` looks the
identifier up in the catalogue. It then posts a record to the page that hosts
the suite, or throws when the identifier is unknown. Two checks report later,
from a promise callback:

- the JWT validation;
- the WebID check, which reads the `Link` header served at the token's WebID
  and looks for a `solid:oidcIssuer` relation naming the token's issuer.

`Link.parse` reads one value of such a header.

The model has five modules, one file each:

- `Js` (`js.dfy`): the JavaScript values and built-ins the checks depend on.
  - `Option` stands for a member that may be missing. A JSON `null` read
    through `?.`, `!= null` or `===` against a string behaves as a missing
    member, and is the same `None` there.
  - `JsValue` is the outcome handed to `report`.
  - Also here: `trim` and the `\s` class, `startsWith`, `includes`, `some`
    and `map` on arrays, and the decimal text of an integer.
- `LinkHeader` (`link.dfy`): `Link.parse` and the `rel` getter, plus the split
  of a whole `Link` header on `,\s*<`.
  - `Parse` is the value `Link.parse` returns.
  - `ParseLink` fills the dictionary in place, as the `forEach` does.
- `Suites` (`test_suite.dfy`): `statusClass` and `report` as functions
  (`StatusClass`, `MakeReport`), and the base class `TestSuite`.
  - The posted records are a sequence field, `reports`, that `Report` appends
    to.
  - `Run` loops over a suite's checks in declaration order. An immediate check
    reports at once. A deferred check is handed back as pending, and `Settle`
    reports it when its promise callback runs.
  - `RunAll` is the function that specifies `Run`.
  - The base suite is generic in the type of its messages. Each suite keeps
    its messages as a datatype, `Message`, whose `Text` is the exact string
    the source passes to `report`. A record carries the message as `report`
    received it.
- `Discovery` (`discovery.dfy`): the ten metadata checks, their declaration
  order, and the `DiscoverySuite` class.
- `IdToken` (`id_token.dfy`): the eight token checks, their declaration order,
  and the `IdTokenSuite` class.

Each check is a function from the data it reads to an `Invocation`: the
arguments it passes to `report`, plus whether it reports from a promise
callback. Its contract states when the outcome is a pass, a fail or a skip.

Inputs, clock and objects:

- What the external libraries and the network deliver comes into the model as
  values:
  - the body `JOSE.parse` decodes;
  - the value `JOSE.validate` resolves to;
  - the WebID's `Link` header, or `None` when the response has none.
- The clock is one integer, `Date.now()` in milliseconds.
- `DiscoverySuite` and `IdTokenSuite` hold a `TestSuite` as `base` where the
  source extends it.

## Model

| member | source | states |
|---|---|---|
| Js.TrimStartSpec | js/solid-oidc-test-suite.js:23 | what `\s*` after the `;` consumes: the result is a suffix of the input, everything removed is whitespace, and the result does not start with whitespace |
| Js.TrimEndSpec | js/solid-oidc-test-suite.js:24 | the trailing half of `trim`: a prefix of the input, only whitespace removed, and no whitespace left at its end |
| Js.TrimPadded | js/solid-oidc-test-suite.js:24 | `trim` returns exactly the text between surrounding runs of whitespace |
| Js.IndexOfSpec | js/solid-oidc-test-suite.js:23 | the position where the splits cut: the first occurrence of the character, or the length when it does not occur |
| Js.IndexOfIs | js/solid-oidc-test-suite.js:23 | that position is the only one with those two properties |
| Js.StartsWith | js/solid-oidc-test-suite.js:144 | `startsWith` holds exactly when the argument is a prefix |
| Js.Includes | js/solid-oidc-test-suite.js:150 | `includes` on a string array holds exactly when the string is an element |
| Js.SomeIn | js/solid-oidc-test-suite.js:168 | `some(alg => options.includes(alg))` holds exactly when some element is one of the options |
| Js.MapEach | js/solid-oidc-test-suite.js:116 | `map` applies the function to every element and keeps the order and the length |
| LinkHeader.ParseLink | js/solid-oidc-test-suite.js:22-29 | filling the dictionary step by step with the `forEach` gives the link `Parse` describes |
| LinkHeader.ParseWithoutSemicolon | js/solid-oidc-test-suite.js:22-29 | a value without `;` has no parameters and `rel` is undefined; its URI is the trimmed value with one `<` and one `>` stripped |
| LinkHeader.ParseUriIsHead | js/solid-oidc-test-suite.js:23-24 | the URI depends only on the text before the first `;` |
| LinkHeader.ParseBracketedUri | js/solid-oidc-test-suite.js:24 | whitespace around `<u>` is trimmed and exactly one pair of angle brackets is removed |
| LinkHeader.ParseUnopenedUri | js/solid-oidc-test-suite.js:24 | a value whose `<` was consumed by the header split still yields its URI, because the leading `<` is optional |
| LinkHeader.SplitParamsOf | js/solid-oidc-test-suite.js:23 | the split at `;` keeps the text before the first `;` and the first fragment only, without the whitespace after the `;` |
| LinkHeader.SplitAssignmentOf | js/solid-oidc-test-suite.js:26 | the split at `=` keeps the name and the value up to a second `=` |
| LinkHeader.ParseOneParam | js/solid-oidc-test-suite.js:23-27 | the one recorded parameter is the untrimmed name before the first `=`, mapped to the value cut at a second `=` with one `"` removed at each end; text after a second `;` is ignored |
| LinkHeader.ParseParamWithoutAssignment | js/solid-oidc-test-suite.js:26-27 | a fragment without `=` is dropped, leaving no parameters and `rel` undefined |
| LinkHeader.ParseRecordsAtMostOneParam | js/solid-oidc-test-suite.js:23-27 | whatever the value, at most one parameter is recorded |
| LinkHeader.QuotedAndBareRelAgree | js/solid-oidc-test-suite.js:18-27 | `rel=x` and `rel="x"` both make the `rel` getter return `x` |
| LinkHeader.ParseFormat | js/solid-oidc-test-suite.js:22-29 | parsing `<uri>; key="val"` gives back the URI and the single parameter `key` mapped to `val` |
| LinkHeader.ParseExample | js/solid-oidc-test-suite.js:22-29 | `<https://a/b>; rel="x"` parses to URI `https://a/b` with parameters `{rel: "x"}` |
| LinkHeader.SplitLinksSingle | js/solid-oidc-test-suite.js:116 | a header without a comma is a single value |
| LinkHeader.SplitLinksCons | js/solid-oidc-test-suite.js:116 | a value followed by `,`, whitespace and `<` is split off, and the `<` of the next value goes with the separator |
| LinkHeader.SplitFormatted | js/solid-oidc-test-suite.js:116 | a formatted link without commas is one piece of the header |
| Suites.StatusClass | js/solid-oidc-test-suite.js:62-71 | pass exactly for `true`, fail exactly for `false`, skip for every other value |
| Suites.MakeReport | js/solid-oidc-test-suite.js:45-60 | an unknown identifier yields the error `Invalid identifier: [id]`; otherwise the record copies label, level, comment and reference from the catalogue entry, passes the message through, and has the status of the outcome |
| Suites.TestSuite.Report | js/solid-oidc-test-suite.js:45-60 | a known identifier appends exactly that record to the delivered records; an unknown one throws and delivers nothing |
| Suites.TestSuite.Run | js/solid-oidc-test-suite.js:39-43 | the loop delivers, starts and throws exactly what `RunAll` says |
| Suites.TestSuite.Settle | js/solid-oidc-test-suite.js:95-97 | a promise callback delivers its record when the identifier is known, and otherwise nothing, without the error escaping |
| Suites.RunAllKnown | js/solid-oidc-test-suite.js:39-43 | with every identifier known, a run throws nothing, delivers one record per immediate check and leaves exactly the deferred checks pending, in declaration order |
| Suites.RunAllComplete | js/solid-oidc-test-suite.js:39-60 | with every identifier known, the records delivered are those `report` builds for the immediate checks, in declaration order |
| Suites.RunKnownIds | js/solid-oidc-test-suite.js:39-60 | the two facts above, for a suite whose checks report a given list of known identifiers |
| Suites.RunAllThrows | js/solid-oidc-test-suite.js:39-60 | a run throws exactly when some immediate check has an unknown identifier; a deferred one never makes it throw |
| Suites.RunAllStopsAtFirstUnknown | js/solid-oidc-test-suite.js:39-60 | the error names the first immediate check with an unknown identifier; only the checks before it have reported or started |
| Discovery.DiscoveryIssuer | js/solid-oidc-test-suite.js:143-146 | a missing issuer is a skip; a present one passes exactly when it starts with `http` |
| Discovery.DiscoveryClaimSupport | js/solid-oidc-test-suite.js:148-152 | a missing `claims_supported` is a skip; otherwise pass exactly when it contains `webid` |
| Discovery.DiscoveryPkceSupport | js/solid-oidc-test-suite.js:154-158 | a missing `code_challenge_methods_supported` is a skip; otherwise pass exactly when it contains `S256` |
| Discovery.DiscoveryGrantTypeSupport | js/solid-oidc-test-suite.js:160-164 | a missing `grant_types_supported` is a skip; otherwise pass exactly when it contains `authorization_code` |
| Discovery.DiscoveryDpopSupport | js/solid-oidc-test-suite.js:166-170 | a missing `dpop_signing_alg_values_supported` is a skip; otherwise pass exactly when it contains `ES256` or `RS256` |
| Discovery.DiscoverySigningAlgSupport | js/solid-oidc-test-suite.js:172-176 | a missing `id_token_signing_alg_values_supported` is a skip; otherwise pass exactly when it contains `RS256` |
| Discovery.DiscoveryDynamicRegistrationSupport | js/solid-oidc-test-suite.js:178-182 | never a skip: pass exactly when `registration_endpoint` is present and not null |
| Discovery.DiscoveryLogoutSupport | js/solid-oidc-test-suite.js:184-188 | never a skip: pass exactly when `end_session_endpoint` is present and not null |
| Discovery.DiscoveryResponseTypeSupport | js/solid-oidc-test-suite.js:190-194 | a missing `response_types_supported` is a skip; otherwise pass exactly when it contains `code` |
| Discovery.DiscoveryScopeSupport | js/solid-oidc-test-suite.js:196-200 | a missing `scopes_supported` is a skip; otherwise pass exactly when it contains `webid` |
| Discovery.ChecksInDeclarationOrder | js/solid-oidc-test-suite.js:136-201 | the ten checks report the ten identifiers in declaration order, all of them at once |
| Discovery.RunReportsEveryCheck | js/solid-oidc-test-suite.js:39-43 | with the ten identifiers known, a discovery run throws nothing, leaves nothing pending and delivers ten records, one per check in declaration order |
| Discovery.DiscoverySuite.Run | js/solid-oidc-test-suite.js:39-43 | the suite's run delivers and throws what `RunAll` says of its ten checks |
| IdToken.TokenType | js/solid-oidc-test-suite.js:83-86 | never a skip: pass exactly when `token_type` is `DPoP` |
| IdToken.TokenIdIssuer | js/solid-oidc-test-suite.js:88-92 | never a skip: pass exactly when `iss` equals the configured issuer |
| IdToken.TokenValidation | js/solid-oidc-test-suite.js:94-98 | reports from the promise callback; pass or fail exactly when the resolved validation value is `true` or `false` |
| IdToken.TokenAudience | js/solid-oidc-test-suite.js:100-104 | never a skip: pass exactly when `aud` is the single string equal to the client id; an array audience always fails |
| IdToken.TokenWebId | js/solid-oidc-test-suite.js:106-110 | a missing `webid` is a skip; otherwise pass exactly when it starts with `https://` |
| IdToken.ParseAllEach | js/solid-oidc-test-suite.js:116 | `map(l => Link.parse(l))`: one parsed link per piece, in order |
| IdToken.RelUrisNamed | js/solid-oidc-test-suite.js:117-118 | a URI is collected exactly when some link has the filtered relation type and that URI |
| IdToken.TokenDerefWebIdHeaders | js/solid-oidc-test-suite.js:112-120 | reports from the promise callback; a missing header is a skip, and a present one never is; the message is the one built from the header |
| IdToken.WebIdHeaderOutcome | js/solid-oidc-test-suite.js:114-118 | with a header, pass exactly when one of the links parsed from its pieces is a `solid:oidcIssuer` relation whose URI is the token's own `iss`, not the configured issuer |
| IdToken.WebIdMessage | js/solid-oidc-test-suite.js:119 | the message shows `[n/a]` when there is no header or it is empty, and the header itself when it is non-empty |
| IdToken.TokenIatClaim | js/solid-oidc-test-suite.js:122-126 | never a skip: pass exactly when `iat` is present and less than now in seconds plus 60, compared as real numbers |
| IdToken.TokenExpClaim | js/solid-oidc-test-suite.js:128-132 | never a skip: pass exactly when `exp` is present and strictly greater than now in seconds, compared as real numbers |
| IdToken.ChecksInDeclarationOrder | js/solid-oidc-test-suite.js:75-132 | the eight checks report the eight identifiers in declaration order; exactly the validation and the WebID check are deferred |
| IdToken.ChecksByKind | js/solid-oidc-test-suite.js:75-132 | the six immediate checks and the two deferred ones, each in declaration order |
| IdToken.RunReportsEveryCheck | js/solid-oidc-test-suite.js:39-43 | with the eight identifiers known, a token run throws nothing, delivers six records in declaration order and leaves the validation and the WebID check pending |
| IdToken.IatAllowance | js/solid-oidc-test-suite.js:124 | `iat` 30 seconds ahead passes, 120 seconds ahead fails, and a missing `iat` fails |
| IdToken.ExpIsStrict | js/solid-oidc-test-suite.js:130 | `exp` equal to the current second fails, one second later passes, and a missing `exp` fails |
| IdToken.SingleLinkHeader | js/solid-oidc-test-suite.js:112-120 | a header of one link `<u>; rel="x"` passes exactly when `x` is the `solid:oidcIssuer` relation type and `iss` is `u` |
| IdToken.TwoLinkHeader | js/solid-oidc-test-suite.js:112-120 | in a header of two links both are found, even though the split takes the second one's `<`; the check passes exactly when one of them is an issuer relation to `iss` |
| IdToken.IdTokenSuite.Run | js/solid-oidc-test-suite.js:39-43 | the suite's run delivers, starts and throws what `RunAll` says of its eight checks |
| IdToken.IdTokenSuite.Settle | js/solid-oidc-test-suite.js:95-97 | a promise callback of the suite delivers its record when the identifier is known |

## Left out

- `JOSE.parse` and `JOSE.validate` come from an external JWT library. The
  decoded body and the resolved validation value are inputs. A `JOSE.parse` that
  throws, which would abort `run`, is not modelled.
- A rejected promise from `JOSE.validate` or `fetch` delivers no record. The
  model always settles a started deferred check with a value.
- The promise callbacks run after `run` returns, in whatever order the promises
  resolve. `Run` returns the started deferred checks and `Settle` reports one of
  them. The order in which a caller settles them stands in for the scheduling.
- Both checks are given their resolved values when the run starts:
  - the WebID fetch goes to `body.webid` whatever it holds; the resolved header
    is an input, so where it was fetched from is not modelled;
  - `Resolved` carries the validation value and the header.
- `window.top.postMessage` is replaced by appending to `reports`. The
  structured-clone transport and the target origin are not modelled.
- `Reflect.ownKeys` enumeration is replaced by a fixed list of checks in
  declaration order (`Checks`). Which members the prototype holds is not
  modelled.
- `Date.now()` is one integer millisecond value shared by the two time checks.
  The source reads the clock in each check. `Date.now() / 1000 + 60` in floating
  point is stated as an exact real comparison.
- `iat` and `exp` are whole seconds. A fractional or non-numeric claim is not
  modelled.
- IdToken.TokenIatClaim: a JSON `null` `iat` is not modelled. In the source
  `null < Date.now() / 1000 + 60` compares 0 and passes, and the message
  prints `null`; the model has only a missing `iat`, which fails and prints
  `undefined`.
- IdToken.TokenExpClaim: a JSON `null` `exp` is not modelled. In the source
  the message prints `null` for it; the model has only a missing `exp`,
  which prints `undefined`.
- IdToken.TokenIdIssuer: the configured issuer is a `string`. An undefined
  `this.issuer`, which makes a missing `iss` pass as
  `undefined === undefined`, is not modelled.
- JavaScript prints numbers of 10^21 and above in exponent form. `NumberText`
  prints every integer in plain decimal.
- Each member is modelled with the JSON type the checks expect. For example, a
  string where an array is expected would make `includes` search for a
  substring. That is not modelled, and neither is a non-string `webid`, which
  would make `startsWith` throw.
- No catalogue entry is falsy. A catalogue member inherited from
  `Object.prototype` is not modelled. The suites' identifiers are no such names.
- Strings are sequences of `char`; UTF-16 lone surrogates are not modelled.
- `js/config.js` holds deployment constants only and is not part of this model.

Behaviour of `js/solid-oidc-test-suite.js` worth noting:

- A missing `Link` header makes the whole optional chain `undefined`. The WebID
  check is then a skip with `n/a` in its message, not a fail.
- `Link.parse` records at most one parameter, because of the limit of 2 on the
  split at `;`. It does not let the last of several parameters win.
- A parameter named `__proto__` leaves the dictionary empty, as an assignment of
  a string to `__proto__` on a plain object does.
- The audience check is strict equality, as the code has it. The message's
  "includes" is not followed.
- No time-outs and no error boundary are added to the asynchronous checks.
