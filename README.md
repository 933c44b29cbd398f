# PayIDValidator, modelled in Dafny

`PayIDValidator` checks that a PayID server answers according to the PayID
protocol. It works in three stages:

1. **Preflight.** It checks the user's PayID against a grammar and the
   requested network against a table of eleven supported networks.
2. **Request.** It fetches `https://host/local` with the network's Accept
   header. It then runs a fixed sequence of checks on the answer: the status
   code; the four CORS headers, Cache-Control and Content-Type; the JSON body,
   with its schema errors and a blockchain lookup per crypto address; and the
   body/network consistency check. Each check appends one verdict
   `{label, value, code, msg}` to the response-properties list.
3. **Score.** It turns the verdicts into a percentage.

The model follows that structure, module by module.

| module | file | what it holds |
|---|---|---|
| `Wrappers` | wrappers.dfy | `Option` |
| `Text` | text.dfy | the PHP string builtins the class uses: `strtolower` (ASCII), `trim`, `explode`/`implode` on one character, `strpos`-style search, the decimal rendering of an integer, the `"\n"` to `"<br>"` replacement |
| `PayId` | payid.dfy | `PAYID_REGEX` as PHP's `preg_match` runs it (`PayIdRegexAsWritten`: a PayID, optionally followed by one final line break), built on the end-anchored decision procedure `IsValidPayId`; the regular expression's own shape as a reference (`MatchesPayIdPattern`); `getRequestUrl` |
| `Networks` | networks.dfy | the `requestTypes` table; the hostname lookup; the decomposition of an Accept header into network and environment tokens |
| `Http` | http.dfy | the response and lookup-reply datatypes; `World`, a record of the outside world's answers |
| `Verdicts` | verdicts.dfy | check labels, fixed messages, the verdict record, points and score |
| `ContentType` | contenttype.dfy | the Content-Type pattern `/application\/[\w\-]*[\+]*json/i`, as a scan and as the pattern read literally |
| `Headers` | headers.dfy | status, response-time, CORS, Cache-Control and Content-Type verdicts |
| `Body` | body.dfy | schema-error accumulation, crypto lookup dispatch and classification, the body JSON verdict, the network consistency check |
| `Validator` | validator.dfy | the class `PayIdValidator` and the specification of everything `makeRequest` records |

**Labels and messages are enumerations.** A check's label is a `Check`
constructor and a fixed message is a `Note` constructor. `Check.Label()` and
`Note.Message()` give the exact PHP texts, for example
`Label(AddressCheck(2)) == "Address[2] verification"`. A message that is built
from data is `Text(s)` or `Lines(errors)`.

**From the source to the model:**

- **The outside world is one record.** `World` supplies these answers as plain
  functions:
  - the primary GET, as an `Exchange`: transfer statistics plus either a
    connect-failure message or a `Response`;
  - the secondary OPTIONS probe;
  - the JSON-schema validator, which returns `(property, message)` pairs;
  - `json_encode` pretty-printing and `strip_tags`;
  - the BTC, ETH and XRPL lookups, and the X-address decoder.
- **A response** has a status, a map from lower-cased header name to header
  line, the raw body, and the decoded body as `Option<PaymentInformation>`,
  where `None` means `json_decode` gave a falsy value.
- **Pure code** becomes functions: the verdict each check records and the
  whole verdict list of a request (`RequestVerdicts`).
- **Code that changes state** becomes methods of the class. They append to
  `errors` and `responseProperties` and set `hasValidationOccurred` and
  `failError`. Every method is proved to append exactly the verdicts the
  specification function names. The lemmas then state what those verdicts
  are.

## Model

Source paths are relative to the repository root.

| member | source | states |
|---|---|---|
| PayId.PayIdGrammar | dist/lib/PayIDValidator.php:40 | the decision procedure accepts a string iff it is `token(.token)*` over the local-part class, then `$`, then DNS labels whose final label has no inner digit or a dotted quad of 1-3 digit groups |
| PayId.ValidPayIdShape | dist/lib/PayIDValidator.php:40 | an accepted PayID holds exactly one `$` and no line break |
| PayId.SplitAtDollar | dist/lib/PayIDValidator.php:277-282 | a PayID matching the pattern explodes on `$` into exactly its local part and host |
| PayId.RequestUrlOfParts | dist/lib/PayIDValidator.php:277-282 | with no other `$` on either side, the URL is `https://` + host + `/` + local |
| PayId.RequestUrlOfPayId | dist/lib/PayIDValidator.php:231-282 | for an accepted PayID the URL is `https://host/local` for the very parts the pattern matched |
| PayId.RegexAsWrittenLanguage | dist/lib/PayIDValidator.php:40 | the pattern as PHP runs it accepts a string iff it is in the pattern's language, or is a word of that language followed by one line break |
| PayId.TrailingNewlineAccepted | dist/lib/PayIDValidator.php:40 | `"alice$example.com\n"` passes the pattern as PHP evaluates it, but is not a PayID |
| PayId.TrailingNewlineUrl | dist/lib/PayIDValidator.php:277-282 | the request for that PayID goes to a host ending in a line break |
| PayId.ExamplePayIdAccepted | dist/lib/PayIDValidator.php:40 | `alice$example.com` is accepted |
| PayId.ExampleNewlineRejected | dist/lib/PayIDValidator.php:40 | `alice$example.com` followed by a line break is rejected by the anchored grammar |
| Networks.LookupHostnameIff | dist/lib/PayIDValidator.php:875-876 | the lookup yields a service iff the lower-cased `network-environment` key is one of the nine crypto keys, and then it is that key's hostname; the case of the tokens does not matter |
| Networks.SupportedIffListed | dist/lib/PayIDValidator.php:249-257 | a network is supported iff it is one of the eleven keys, with no case folding |
| Networks.EntryHeader | dist/lib/PayIDValidator.php:47-101 | every header in the table is `application/<key>+json`, except the wildcard network's, which is `application/payid+json` |
| Networks.RegistryShape | dist/lib/PayIDValidator.php:695-699 | a header of the form `application/<letters>[-<letters>]+json` decomposes into those two tokens |
| Networks.SubtypeOf | dist/lib/PayIDValidator.php:695-699 | the greedy groups of `([\w]+)[\-]*([^\+]+)?\+([\w]+)` take the whole word run, skip the hyphens, and stop at the first `+` |
| Networks.NoPlusNoParts | dist/lib/PayIDValidator.php:695-707 | without a `+` the decomposition fails (the "cannot be found" branch) |
| Networks.CryptoHeaderParts | dist/lib/PayIDValidator.php:47-101 | for a crypto key `<network>-<environment>`, the header's tokens rebuild the key and lead the hostname lookup to the key's own service |
| Networks.RegistryHeaderParts | dist/lib/PayIDValidator.php:685-712 | every table header decomposes; its tokens name its own network (`payid` for `all`); the hostname found from them is the network's own |
| Validator.PreflightErrorsOrder | dist/lib/PayIDValidator.php:262-272 | both checks run, the PayID one with the pattern as PHP runs it; there is one message per failed check, the PayID message first; none iff both pass |
| Validator.TrailingNewlinePassesPreflight | dist/lib/PayIDValidator.php:231-272 | `"alice$example.com\n"` with `btc-mainnet` records no preflight error |
| Validator.PayIdValidator.IsUserDefinedPayIdValid | dist/lib/PayIDValidator.php:231-244 | returns `preg_match`'s verdict for the pattern as PHP runs it, so a PayID followed by one line break is accepted; a rejection appends exactly one message naming the PayID; acceptance leaves `errors` unchanged |
| Validator.PayIdValidator.IsUserDefinedNetworkSupported | dist/lib/PayIDValidator.php:249-257 | returns table membership; a rejection appends exactly the network message |
| Validator.PayIdValidator.HasPreflightErrors | dist/lib/PayIDValidator.php:262-272 | appends `PreflightErrors` and returns whether the whole list, earlier entries included, is non-empty |
| Validator.PayIdValidator.SetUserDefinedProperties | dist/lib/PayIDValidator.php:188-194 | sets the PayID and the network and nothing else |
| Validator.PayIdValidator.constructor | dist/lib/PayIDValidator.php:180-183 | starts with no errors, no verdicts, and no validation |
| Validator.PayIdValidator.SetResponseProperty | dist/lib/PayIDValidator.php:1059-1070 | appends exactly one verdict at the end and keeps the earlier ones |
| Headers.StatusClassification | dist/lib/PayIDValidator.php:339-355 | pass iff 200, warn iff 300-399, fail otherwise; the recorded value reads back as the status |
| Validator.PayIdValidator.CheckStatusCode | dist/lib/PayIDValidator.php:339-355 | appends exactly `StatusVerdict(status)` |
| Headers.ResponseTimeClassification | dist/lib/PayIDValidator.php:630-646 | passes iff the transfer was under five seconds; otherwise fails with the "too slow" note; the value is `<time> seconds` |
| Validator.PayIdValidator.CheckResponseTime | dist/lib/PayIDValidator.php:630-646 | appends exactly `ResponseTimeVerdict` |
| Headers.AllowOriginPassIff | dist/lib/PayIDValidator.php:360-384 | Allow-Origin passes iff the header is present and equals `*` |
| Headers.MissingHeadersFail | dist/lib/PayIDValidator.php:360-625 | each of the six header checks fails with observed value `''` when its header is missing |
| Headers.CollectMethodErrors | dist/lib/PayIDValidator.php:400-425 | the loop computes exactly `MethodErrors` and the note `MethodNote` |
| Headers.SecondaryOptionsFoundIff | dist/lib/PayIDValidator.php:524-552 | the OPTIONS probe finds OPTIONS iff its answer has an Allow-Methods header whose line holds `options` at some position, in any mix of cases |
| Headers.MethodErrorsEmptyIff | dist/lib/PayIDValidator.php:407-425 | no method error iff every required method is listed, or found by the probe when it is OPTIONS |
| Headers.MethodErrorsInOrder | dist/lib/PayIDValidator.php:394-425 | the errors are POST's, then GET's, then OPTIONS', at most one each |
| Headers.AllowMethodsPassIff | dist/lib/PayIDValidator.php:386-443 | passes iff present and, after splitting on `,` and trimming, POST and GET are listed exactly (case-sensitive) and OPTIONS is listed or found by the probe; a pass carries the pre-flight note iff the probe supplied OPTIONS; a failure shows the errors joined by spaces |
| Headers.ProbeOnlyForMissingOptions | dist/lib/PayIDValidator.php:407-425 | when OPTIONS is listed, the probe's answer cannot change the verdict |
| Headers.PiecesIff | dist/lib/PayIDValidator.php:455-459 | a name is among the trimmed, lower-cased pieces iff some `,`-separated field of the line trims and lower-cases to it |
| Headers.AllowHeadersPassIff | dist/lib/PayIDValidator.php:445-473 | passes iff present and some field is `payid-version` after trimming and lower-casing |
| Headers.CollectExposeErrors | dist/lib/PayIDValidator.php:489-500 | the loop computes exactly `ExposeErrors` |
| Headers.ExposeErrorsEmptyIff | dist/lib/PayIDValidator.php:496-500 | no error iff every expected header, lower-cased, is among the pieces |
| Headers.ExposeHeadersPassIff | dist/lib/PayIDValidator.php:475-516 | passes iff both `payid-version` and `payid-server-version` are listed; the errors are one per missing header, PayID-Version's first |
| Headers.CacheControlPassIff | dist/lib/PayIDValidator.php:557-586 | passes iff present and `no-store` occurs in it, case-sensitively |
| ContentType.ContentTypeRegex | dist/lib/PayIDValidator.php:604-608 | the scan accepts a line iff, somewhere, lower-cased, it reads `application/` + `[\w-]*` + `+*` + `json` |
| ContentType.ScanFromIff | dist/lib/PayIDValidator.php:604-608 | trying every start position finds a match iff one exists |
| ContentType.TailMatchesIff | dist/lib/PayIDValidator.php:604-608 | the greedy reading of the tail accepts exactly the literal pattern's tails |
| ContentType.ShortLinesFail | dist/lib/PayIDValidator.php:604-625 | a line shorter than `application/json` never matches |
| Headers.ContentTypePassIff | dist/lib/PayIDValidator.php:591-625 | passes iff present and the pattern matches; the value is the header line; the label is "Content Type" when present, the header label otherwise |
| Headers.EchoedMediaTypePasses | dist/lib/PayIDValidator.php:591-625 | echoing any table header as Content-Type passes |
| Validator.PayIdValidator.CheckCorsHeaders | dist/lib/PayIDValidator.php:360-517 | appends exactly the four CORS verdicts, in source order |
| Validator.PayIdValidator.CheckCacheControl | dist/lib/PayIDValidator.php:557-586 | appends exactly `CacheControlVerdict` |
| Validator.PayIdValidator.CheckContentType | dist/lib/PayIDValidator.php:591-625 | appends exactly `ContentTypeVerdict` |
| Body.ValidateJsonSchema | dist/lib/PayIDValidator.php:809-831 | appends one `[property] message` per validator error, in the validator's order, after the accumulated ones |
| Body.AddressesErrorsEmptyIff | dist/lib/PayIDValidator.php:768-804 | no address error iff each address is clean under its own schema and, when details type and details are both set, under the ACH or crypto details schema |
| Body.RootErrorsEmptyIff | dist/lib/PayIDValidator.php:745-763 | no error iff the root schema and every address are clean |
| Validator.PayIdValidator.ValidateJsonAddressObject | dist/lib/PayIDValidator.php:768-804 | extends the errors by `AddressErrors`; records the lookup only for crypto details |
| Validator.PayIdValidator.ValidateRootLevelJson | dist/lib/PayIDValidator.php:745-763 | returns `RootErrors` (root schema, then per address in order) and records `BodyLookups` |
| Body.BtcEthClassification | dist/lib/PayIDValidator.php:836-975 | BTC passes iff the lookup answers 200; ETH fails iff non-200, no JSON, or status `"0"`; both report the address and never warn |
| Body.XrpClassification | dist/lib/PayIDValidator.php:980-1038 | `actNotFound` gives fail; a matching `account_data.Account` gives pass; anything else gives no verdict; the value is the decoded account; networks other than btc/eth/xrpl get no lookup |
| Validator.PayIdValidator.ValidateCryptoAddress | dist/lib/PayIDValidator.php:836-864 | records exactly `CryptoLookup`: dispatch on the lower-cased network |
| Validator.PayIdValidator.ValidateBtcAddress | dist/lib/PayIDValidator.php:869-913 | records exactly `BtcVerdict` for the table's hostname |
| Validator.PayIdValidator.ValidateEthAddress | dist/lib/PayIDValidator.php:919-975 | records exactly `EthVerdict` |
| Validator.PayIdValidator.ValidateXrpAddress | dist/lib/PayIDValidator.php:980-1038 | records exactly `XrpVerdict` for the decoded account, or nothing |
| Body.LookupsTrace | dist/lib/PayIDValidator.php:755-800 | at most one lookup per address; each names the index of an address that carries CryptoAddressDetails on btc, eth or xrpl |
| Body.NoCryptoNoLookups | dist/lib/PayIDValidator.php:780-800 | a body without crypto details triggers no lookup |
| Validator.LookupsBelongToCryptoAddresses | dist/lib/PayIDValidator.php:651-680 | every lookup verdict of a 200 answer belongs to a crypto address of its body |
| Body.BodyJsonPassIff | dist/lib/PayIDValidator.php:651-680 | passes iff the body decodes with no schema error; a failing decoded body lists the errors; the shown JSON has no raw newline; an undecodable body is shown through `strip_tags` |
| Validator.PayIdValidator.CheckResponseBodyForValidity | dist/lib/PayIDValidator.php:651-680 | records the lookups, then the body verdict |
| Body.CollectNetworkErrors | dist/lib/PayIDValidator.php:714-724 | the loop computes exactly `NetworkErrors` |
| Body.NetworkErrorsEmptyIff | dist/lib/PayIDValidator.php:714-724 | no error iff every address agrees with the tokens, case-insensitively (environment only when set); at most two errors per address |
| Body.NetworkVerdictPassIff | dist/lib/PayIDValidator.php:685-740 | for every supported network: the header decomposes, the value is the Accept header, and the check passes iff the body decodes and the network is `all` or every address agrees |
| Body.BtcAddressUnderEthFails | dist/lib/PayIDValidator.php:685-740 | a body listing a BTC address fails the check for an `eth-mainnet` request |
| Validator.PayIdValidator.CheckResponseBodyForNetworkAndEnvironmentCorrectness | dist/lib/PayIDValidator.php:685-740 | appends exactly `NetworkVerdict` for the network's Accept header |
| Validator.HeaderOrder | dist/lib/PayIDValidator.php:324-326 | the header checks record Allow-Origin, Allow-Methods, Allow-Headers, Expose-Headers, Cache-Control, Content-Type, in that order |
| Validator.BodyNetworkOrder | dist/lib/PayIDValidator.php:327-328 | the body checks record the lookups, then the body verdict, then the network verdict |
| Validator.SuccessOrder | dist/lib/PayIDValidator.php:323-329 | after a 200, the six header verdicts come first, then the lookups, the body verdict and the network verdict |
| Validator.RequestGating | dist/lib/PayIDValidator.php:307-333 | the status verdict follows the response-time verdict; any status but 200 stops there; a 200 appends exactly the success verdicts |
| Validator.ConnectFailureRecordsOnlyTiming | dist/lib/PayIDValidator.php:315-319 | a connect failure records at most the response-time verdict |
| Validator.PayIdValidator.RunSuccessChecks | dist/lib/PayIDValidator.php:323-329 | appends exactly `SuccessVerdicts` |
| Validator.PayIdValidator.MakeRequest | dist/lib/PayIDValidator.php:287-333 | appends exactly `RequestVerdicts`; returns whether the server answered; on a connect failure sets `failError` and leaves `hasValidationOccurred` as it was; otherwise sets it; keeps at least one verdict once validation has occurred |
| Verdicts.PointsBound | dist/lib/PayIDValidator.php:1115-1123 | the points are at most 2n, and equal 2n iff every verdict passes |
| Verdicts.PointsAppend | dist/lib/PayIDValidator.php:1115-1123 | the points of a concatenation add up |
| Verdicts.ScoreProperties | dist/lib/PayIDValidator.php:1103-1133 | the score is the nearest hundredth to 100·points/(2n), ties up; it lies in [0, 100]; all-pass gives 100, and below 10000 verdicts only all-pass does |
| Verdicts.ManyVerdictsRoundUp | dist/lib/PayIDValidator.php:1126 | with 10000 verdicts, one warning still rounds to 100 |
| Verdicts.ThreePassesOneWarn | dist/lib/PayIDValidator.php:1103-1133 | three passes and a warning score 87.5 |
| Validator.PayIdValidator.GetValidationScore | dist/lib/PayIDValidator.php:1103-1133 | 0 before any validation; otherwise the loop's total is the points, and the result is `ScoreHundredths`, at most 100.00 |
| Text.SplitImplode | dist/lib/PayIDValidator.php:279 | exploding an implode of pieces free of the separator gives the pieces back |
| Text.ImplodeSplit | dist/lib/PayIDValidator.php:279 | imploding an explode gives the string back |
| Text.HasInfixIff | dist/lib/PayIDValidator.php:571 | the substring search succeeds iff the substring occurs at some position |
| Text.NatToStringValue | dist/lib/PayIDValidator.php:349-353 | the decimal rendering of the status reads back as the status |

## Left out

- **HTTP and Guzzle.** The primary GET, the secondary OPTIONS request, the
  BTC/ETH/XRPL lookups and the X-address decoder are network I/O. Their
  answers are fields of `World`. The lookups take the hostname and the
  address, not the URL, query string or API keys built around them.
- **The JSON-schema library and its schema files.** These are an
  uninterpreted validator function in `World`.
- **`json_decode`, `json_encode` and `strip_tags`.** The decoded body is an
  `Option` in the response; the other two are `World` functions.
- **Only the decoded-body fields the validator reads are modelled.** These
  are the addresses and their payment network, environment, details type and
  details address. `World.schema` and `World.prettyJson` see only these
  fields. Two bodies that differ only elsewhere (the root `payId`, an ACH
  account or routing number) therefore get the same schema errors and the
  same pretty-printed JSON.
- **Transfer time is not a float.** `Headers.ResponseTimeClassification` and
  `CheckResponseTime` take `TransferStats`: the rendered time plus whether it
  was under five seconds. There is no float comparison.
  - **Order and count.** Guzzle's `on_stats` callback is modelled as firing
    at most once, before the connect outcome is known.
- **PHP's float `round`.** The score is in whole hundredths, computed as
  `(10000·points + n) div 2n`. This is PHP's round-half-up of the exact ratio.
- **Left out entirely:**
  - Monolog logging and debug mode.
  - The API-key setters and the plain getters (`getErrors`,
    `getResponseHeaders`, `getFailError`, `getAllRequestTypes`, …).
  - Every exception path except a `ConnectException` from the primary GET.
- **PHP warnings are replaced by total defaults.** PHP would warn or raise a
  TypeError in each of these cases:
  - an absent `addresses` field in the network check reads as no addresses;
  - an absent `environment` passed to `validateCryptoAddress` reads as `""`;
  - an unknown `network-environment` key in the hostname lookup gives the
    hostname `""`.
- Validator.PayIdValidator.MakeRequest: does not model an exception from any
  request after the primary GET. The secondary OPTIONS request, the BTC, ETH
  and XRPL lookups and the X-address decoder can throw a `ConnectException`
  or time out, and nothing in the source catches it. The exception then
  escapes `makeRequest`: the verdicts recorded so far stay, `hasValidationOccurred`
  stays false and no score can be computed. In the model these answers always
  arrive, so a 200 answer always records every `SuccessVerdicts` entry and
  sets `hasValidationOccurred`.
- Validator.PayIdValidator.ValidateCryptoAddress, ValidateBtcAddress,
  ValidateEthAddress, ValidateXrpAddress and Headers.SecondaryOptionsFound:
  the same uncaught exception is not modelled; each always yields its verdict
  or its boolean.
- Validator.PayIdValidator.MakeRequest: the catch block of the primary GET
  calls the logger without checking that one was set. With no logger that
  raises an `Error` before `failError` is set; the model always sets
  `failError`.
- **`Validator.PayIdValidator.MakeRequest` requires a supported network.** The
  source reads `requestTypes[networkType]` without checking it. That is an
  undefined-index warning when the preflight was skipped.
- **`Text.Lower` is ASCII `strtolower`.**
- **The Accept-header decomposition is anchored at `application/`.** Every
  table header starts with it, so no other start position matters.
- **Allow-Methods drops its note on failure.** The failing branch passes a
  fifth argument to `setResponseProperty`. That method takes four, so the
  "found via a secondary OPTIONS pre-flight request" note is lost. The model
  records the errors only, as the code does.
- **Allow-Methods is case-sensitive.** `in_array` compares lists of distinct
  non-numeric strings exactly, so the model compares them exactly.
- **The status is not type-checked.** `setResponseProperty` receives the
  integer status code, and the file has no `strict_types`, so PHP coerces it
  to its decimal string (`Text.NatToString`).

## Findings

| source | as written | input that shows it | evidently intended | confidence | as-written member | corrected member |
|---|---|---|---|---|---|---|
| dist/lib/PayIDValidator.php:40 | `PAYID_REGEX` ends in `$` without the `D` modifier. PCRE lets it match just before a final line break, so a PayID followed by `"\n"` is accepted, and `getRequestUrl` builds a host that ends in `"\n"` | `"alice$example.com\n"` | the pattern is anchored at the very end: only `local$host` with nothing after it | not executed | PayId.TrailingNewlineAccepted | PayId.PayIdGrammar |

The validator class runs the pattern as written: `isUserDefinedPayIdValid`
and `hasPreflightErrors` use `PayIdRegexAsWritten`, so the model accepts the
input above, as PHP does (`Validator.TrailingNewlinePassesPreflight`). The
corrected reading is `IsValidPayId`, which `PayId.PayIdGrammar` proves equal
to the pattern matched against the whole string.
