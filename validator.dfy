/**
 * The PayIDValidator object: the user's PayID and network, the preflight
 * error list, the verdict list that the checks of makeRequest append to,
 * the fail error of a connect failure, and the validation score.  The
 * verdicts makeRequest records are specified by RequestVerdicts, a function
 * of what the outside world answers.
 */
module Validator {
  import opened Wrappers
  import opened Text
  import opened Http
  import opened Verdicts
  import opened Networks
  import opened PayId
  import opened Headers
  import opened Body
  import opened ContentType

  function PayIdError(payId: string): string {
    "The PayID you specified (" + payId + ") is not a valid format for a PayID."
  }

  const NetworkError := "The Request Type provided is not valid."

  /** The messages hasPreflightErrors appends: the PayID's first, then the
    * network's. */
  function PreflightErrors(payId: string, networkType: string): seq<string> {
    (if PayIdRegexAsWritten(payId) then [] else [PayIdError(payId)])
    + (if IsNetworkSupported(networkType) then [] else [NetworkError])
  }

  /** Both checks always run: there is one message per failed check, the
    * PayID's first, and none exactly when both pass. */
  lemma PreflightErrorsOrder(payId: string, networkType: string)
    ensures var e := PreflightErrors(payId, networkType);
      && (e == [] <==> PayIdRegexAsWritten(payId) && IsNetworkSupported(networkType))
      && (PayIdError(payId) in e <==> !PayIdRegexAsWritten(payId))
      && (!PayIdRegexAsWritten(payId) ==> e[0] == PayIdError(payId))
      && (NetworkError in e <==> !IsNetworkSupported(networkType))
      && (!IsNetworkSupported(networkType) ==> e[|e| - 1] == NetworkError)
      && |e| == (if PayIdRegexAsWritten(payId) then 0 else 1) + (if IsNetworkSupported(networkType) then 0 else 1)
  {
    var p := PayIdError(payId);
    assert p[4] == 'P' && NetworkError[4] == 'R';
  }

  /** The preflight lets a PayID followed by a line break through: no error
    * is recorded for it. */
  lemma TrailingNewlinePassesPreflight()
    ensures PreflightErrors("alice$example.com\n", "btc-mainnet") == []
  {
    TrailingNewlineAccepted();
  }

  // ---------------------------------------------------------------------------
  // What makeRequest records
  // ---------------------------------------------------------------------------

  /** The Response Time verdict, when Guzzle reported transfer statistics. */
  function TimingVerdicts(ex: Exchange): seq<Verdict> {
    match ex.stats
    case None => []
    case Some(s) => [ResponseTimeVerdict(s)]
  }

  /** The verdicts of checkResponseBodyForValidity: the lookups triggered
    * while validating a decoded body, then the Response Body JSON verdict. */
  function BodyVerdicts(w: World, r: Response): seq<Verdict> {
    (match r.json
     case None => []
     case Some(pi) => BodyLookups(w, pi))
    + [BodyJsonVerdict(w, r)]
  }

  /** The checks that run after a 200 answer, in makeRequest's order. */
  function HeaderVerdicts(r: Response, probe: Response): seq<Verdict> {
    CorsVerdicts(r, probe) + [CacheControlVerdict(r), ContentTypeVerdict(r)]
  }

  function BodyNetworkVerdicts(w: World, networkType: string, accept: string, r: Response): seq<Verdict> {
    BodyVerdicts(w, r) + [NetworkVerdict(networkType, accept, r.json)]
  }

  function SuccessVerdicts(w: World, networkType: string, accept: string, r: Response, probe: Response): seq<Verdict> {
    HeaderVerdicts(r, probe) + BodyNetworkVerdicts(w, networkType, accept, r)
  }

  /** The verdicts makeRequest appends for this PayID and network. */
  function RequestVerdicts(w: World, payId: string, networkType: string): seq<Verdict>
    requires IsNetworkSupported(networkType)
  {
    var url := RequestUrl(payId);
    var accept := AcceptHeader(networkType);
    var ex := w.fetch(url, accept);
    match ex.outcome
    case ConnectFailed(_) => TimingVerdicts(ex)
    case Received(r) =>
      if r.status == 200 then
        TimingVerdicts(ex) + [StatusVerdict(r.status)] + SuccessVerdicts(w, networkType, accept, r, w.probe(url, accept))
      else
        TimingVerdicts(ex) + [StatusVerdict(r.status)]
  }

  /** A connect failure records at most the Response Time verdict. */
  lemma ConnectFailureRecordsOnlyTiming(w: World, payId: string, networkType: string)
    requires IsNetworkSupported(networkType)
    requires w.fetch(RequestUrl(payId), AcceptHeader(networkType)).outcome.ConnectFailed?
    ensures var vs := RequestVerdicts(w, payId, networkType);
      |vs| <= 1 && forall i :: 0 <= i < |vs| ==> vs[i].check == ResponseTimeCheck
  {
  }

  /** The lookups a response's body triggers. */
  function ResponseLookups(w: World, r: Response): seq<Verdict> {
    match r.json
    case None => []
    case Some(pi) => BodyLookups(w, pi)
  }

  /** The header checks: the four CORS verdicts, Cache-Control and
    * Content-Type, in that order. */
  lemma HeaderOrder(r: Response, probe: Response)
    ensures var vs := HeaderVerdicts(r, probe);
      && |vs| == 6
      && vs[0].check == AllowOriginCheck
      && vs[1].check == AllowMethodsCheck
      && vs[2].check == AllowHeadersCheck
      && vs[3].check == ExposeHeadersCheck
      && vs[4].check == CacheControlCheck
      && (vs[5].check == ContentTypeCheck || vs[5].check == ContentTypeHeaderCheck)
  {
  }

  /** The body checks: the lookups, then the body verdict, then the
    * network verdict. */
  lemma BodyNetworkOrder(w: World, networkType: string, accept: string, r: Response)
    ensures var vs := BodyNetworkVerdicts(w, networkType, accept, r);
      var lookups := ResponseLookups(w, r);
      && |vs| == |lookups| + 2
      && vs[..|lookups|] == lookups
      && vs[|vs| - 2].check == BodyJsonCheck
      && (vs[|vs| - 1].check == NetworkMatchCheck || vs[|vs| - 1].check == NetworkFoundCheck)
  {
    var lookups := ResponseLookups(w, r);
    var vs := BodyNetworkVerdicts(w, networkType, accept, r);
    assert BodyVerdicts(w, r) == lookups + [BodyJsonVerdict(w, r)];
    AppendTwice(lookups, [BodyJsonVerdict(w, r)], [NetworkVerdict(networkType, accept, r.json)]);
    assert vs[..|lookups|] == lookups;
  }

  /** The checks after a 200 answer: the six header verdicts, the lookups,
    * the body verdict and the network verdict, in that order. */
  lemma SuccessOrder(w: World, networkType: string, accept: string, r: Response, probe: Response)
    ensures var vs := SuccessVerdicts(w, networkType, accept, r, probe);
      var lookups := ResponseLookups(w, r);
      && |vs| == 8 + |lookups|
      && vs[..6] == HeaderVerdicts(r, probe)
      && vs[6..6 + |lookups|] == lookups
      && vs[|vs| - 2].check == BodyJsonCheck
      && (vs[|vs| - 1].check == NetworkMatchCheck || vs[|vs| - 1].check == NetworkFoundCheck)
  {
    var vs := SuccessVerdicts(w, networkType, accept, r, probe);
    var lookups := ResponseLookups(w, r);
    var tail := BodyNetworkVerdicts(w, networkType, accept, r);
    HeaderOrder(r, probe);
    BodyNetworkOrder(w, networkType, accept, r);
    assert vs[..6] == HeaderVerdicts(r, probe);
    assert vs[6..] == tail;
    assert vs[6..6 + |lookups|] == tail[..|lookups|];
  }

  /** The status verdict follows the Response Time verdict, if any; an
    * answer other than 200 stops the checks there, a 200 answer runs the
    * checks of SuccessOrder after it. */
  lemma RequestGating(w: World, payId: string, networkType: string)
    requires IsNetworkSupported(networkType)
    requires w.fetch(RequestUrl(payId), AcceptHeader(networkType)).outcome.Received?
    ensures var url := RequestUrl(payId);
      var accept := AcceptHeader(networkType);
      var ex := w.fetch(url, accept);
      var r := ex.outcome.response;
      var vs := RequestVerdicts(w, payId, networkType);
      var t := |TimingVerdicts(ex)|;
      && |vs| > t
      && vs[t] == StatusVerdict(r.status)
      && vs[..t] == TimingVerdicts(ex)
      && (r.status != 200 ==> |vs| == t + 1)
      && (r.status == 200 ==> vs[t + 1..] == SuccessVerdicts(w, networkType, accept, r, w.probe(url, accept)))
  {
    var url := RequestUrl(payId);
    var accept := AcceptHeader(networkType);
    var ex := w.fetch(url, accept);
    var r := ex.outcome.response;
    var vs := RequestVerdicts(w, payId, networkType);
    if r.status == 200 {
      var rest := SuccessVerdicts(w, networkType, accept, r, w.probe(url, accept));
      assert vs == TimingVerdicts(ex) + [StatusVerdict(r.status)] + rest;
      AppendTwice(TimingVerdicts(ex), [StatusVerdict(r.status)], rest);
    }
  }

  /** Every lookup verdict of a 200 answer names an address of the body
    * that carries CryptoAddressDetails on a network with a lookup service. */
  lemma LookupsBelongToCryptoAddresses(w: World, r: Response, v: Verdict)
    requires r.json.Some? && v in BodyLookups(w, r.json.value)
    ensures var addrs := r.json.value.addresses.GetOr([]);
      exists k :: 0 <= k < |addrs| && v.check == AddressCheck(k) && IsCryptoEntry(addrs[k])
                  && IsLookupNetwork(addrs[k].paymentNetwork)
  {
    LookupsTrace(w, r.json.value.addresses.GetOr([]));
  }

  // ---------------------------------------------------------------------------
  // The validator object
  // ---------------------------------------------------------------------------

  class PayIdValidator {
    var payId: string
    var networkType: string
    var hasValidationOccurred: bool
    var errors: seq<string>
    var responseProperties: seq<Verdict>
    var failError: string

    /** A completed validation has recorded at least the status verdict. */
    ghost predicate Valid()
      reads this
    {
      hasValidationOccurred ==> |responseProperties| > 0
    }

    constructor()
      ensures payId == "" && networkType == "" && failError == ""
      ensures !hasValidationOccurred && errors == [] && responseProperties == []
      ensures Valid()
    {
      payId := "";
      networkType := "";
      hasValidationOccurred := false;
      errors := [];
      responseProperties := [];
      failError := "";
    }

    method SetUserDefinedProperties(payId': string, networkType': string)
      modifies this`payId, this`networkType
      ensures payId == payId' && networkType == networkType'
    {
      payId := payId';
      networkType := networkType';
    }

    /** isUserDefinedPayIdValid: preg_match with PAYID_REGEX as PHP runs it;
      * a rejected PayID appends one message naming it, an accepted one
      * leaves the errors alone. */
    method IsUserDefinedPayIdValid() returns (ok: bool)
      modifies this`errors
      ensures ok == PayIdRegexAsWritten(payId)
      ensures errors == old(errors) + (if ok then [] else [PayIdError(payId)])
    {
      ok := PayIdRegexAsWritten(payId);
      if !ok {
        errors := errors + [PayIdError(payId)];
      }
    }

    /** isUserDefinedNetworkSupported */
    method IsUserDefinedNetworkSupported() returns (ok: bool)
      modifies this`errors
      ensures ok == IsNetworkSupported(networkType)
      ensures errors == old(errors) + (if ok then [] else [NetworkError])
    {
      ok := IsNetworkSupported(networkType);
      if !ok {
        errors := errors + [NetworkError];
      }
    }

    /** hasPreflightErrors: runs both checks and reports whether any error,
      * earlier ones included, has been recorded. */
    method HasPreflightErrors() returns (r: bool)
      modifies this`errors
      ensures errors == old(errors) + PreflightErrors(payId, networkType)
      ensures r == (|errors| > 0)
    {
      var _ := IsUserDefinedPayIdValid();
      var _ := IsUserDefinedNetworkSupported();
      r := |errors| > 0;
    }

    /** setResponseProperty: appends one verdict and keeps the earlier ones. */
    method SetResponseProperty(check: Check, value: string, code: Code, msg: Msg)
      modifies this`responseProperties
      ensures responseProperties == old(responseProperties) + [Verdict(check, value, code, msg)]
    {
      responseProperties := responseProperties + [Verdict(check, value, code, msg)];
    }

    method CheckResponseTime(stats: TransferStats)
      modifies this`responseProperties
      ensures responseProperties == old(responseProperties) + [ResponseTimeVerdict(stats)]
    {
      if stats.underFiveSeconds {
        SetResponseProperty(ResponseTimeCheck, stats.seconds + " seconds", Pass, NoMsg);
      } else {
        SetResponseProperty(ResponseTimeCheck, stats.seconds + " seconds", Fail, Fixed(TooSlow));
      }
    }

    method CheckStatusCode(r: Response)
      modifies this`responseProperties
      ensures responseProperties == old(responseProperties) + [StatusVerdict(r.status)]
    {
      var code := Fail;
      if r.status == 200 {
        code := Pass;
      } else if 300 <= r.status < 400 {
        code := Warn;
      }
      SetResponseProperty(StatusCheck, NatToString(r.status), code, NoMsg);
    }

    /** checkCORSHeaders; `probe` is the answer to the secondary OPTIONS
      * request, consulted only when OPTIONS is missing. */
    method CheckCorsHeaders(r: Response, probe: Response)
      modifies this`responseProperties
      ensures responseProperties == old(responseProperties) + CorsVerdicts(r, probe)
    {
      CheckAllowOrigin(r);
      CheckAllowMethods(r, probe);
      CheckAllowHeaders(r);
      CheckExposeHeaders(r);
    }

    method CheckAllowOrigin(r: Response)
      modifies this`responseProperties
      ensures responseProperties == old(responseProperties) + [AllowOriginVerdict(r)]
    {
      var headerValue := HeaderLine(r, OriginHeader);
      if !HasHeader(r, OriginHeader) {
        SetResponseProperty(AllowOriginCheck, "", Fail, Fixed(HeaderNotLocated));
      } else if headerValue != "*" {
        SetResponseProperty(AllowOriginCheck, headerValue, Fail, Fixed(HeaderIncorrect));
      } else {
        SetResponseProperty(AllowOriginCheck, headerValue, Pass, NoMsg);
      }
    }

    method CheckAllowMethods(r: Response, probe: Response)
      modifies this`responseProperties
      ensures responseProperties == old(responseProperties) + [AllowMethodsVerdict(r, probe)]
    {
      if !HasHeader(r, MethodsHeader) {
        SetResponseProperty(AllowMethodsCheck, "", Fail, Fixed(HeaderNotLocated));
      } else {
        var headerValue := HeaderLine(r, MethodsHeader);
        var methodErrors, msg := CollectMethodErrors(MethodValues(headerValue), probe);
        if |methodErrors| > 0 {
          SetResponseProperty(AllowMethodsCheck, headerValue, Fail, Text(Implode(" ", methodErrors)));
        } else {
          SetResponseProperty(AllowMethodsCheck, headerValue, Pass, msg);
        }
      }
    }

    method CheckAllowHeaders(r: Response)
      modifies this`responseProperties
      ensures responseProperties == old(responseProperties) + [AllowHeadersVerdict(r)]
    {
      if !HasHeader(r, AllowHeadersHeader) {
        SetResponseProperty(AllowHeadersCheck, "", Fail, Fixed(HeaderNotLocated));
      } else {
        var headerValue := HeaderLine(r, AllowHeadersHeader);
        if "payid-version" !in HeaderPieces(headerValue) {
          SetResponseProperty(AllowHeadersCheck, headerValue, Fail, Fixed(PayIdVersionNotSpecified));
        } else {
          SetResponseProperty(AllowHeadersCheck, headerValue, Pass, NoMsg);
        }
      }
    }

    method CheckExposeHeaders(r: Response)
      modifies this`responseProperties
      ensures responseProperties == old(responseProperties) + [ExposeHeadersVerdict(r)]
    {
      if !HasHeader(r, ExposeHeader) {
        SetResponseProperty(ExposeHeadersCheck, "", Fail, Fixed(HeaderNotLocated));
      } else {
        var headerValue := HeaderLine(r, ExposeHeader);
        var exposedErrors := CollectExposeErrors(HeaderPieces(headerValue));
        if |exposedErrors| > 0 {
          SetResponseProperty(ExposeHeadersCheck, headerValue, Fail, Text(Implode(" ", exposedErrors)));
        } else {
          SetResponseProperty(ExposeHeadersCheck, headerValue, Pass, NoMsg);
        }
      }
    }

    method CheckCacheControl(r: Response)
      modifies this`responseProperties
      ensures responseProperties == old(responseProperties) + [CacheControlVerdict(r)]
    {
      if !HasHeader(r, CacheHeader) {
        SetResponseProperty(CacheControlCheck, "", Fail, Fixed(HeaderNotSet));
      } else {
        var line := HeaderLine(r, CacheHeader);
        if !HasInfix(line, "no-store") {
          SetResponseProperty(CacheControlCheck, line, Fail, Fixed(NoStoreExpected));
        } else {
          SetResponseProperty(CacheControlCheck, line, Pass, NoMsg);
        }
      }
    }

    method CheckContentType(r: Response)
      modifies this`responseProperties
      ensures responseProperties == old(responseProperties) + [ContentTypeVerdict(r)]
    {
      if !HasHeader(r, ContentTypeHeader) {
        SetResponseProperty(ContentTypeHeaderCheck, "", Fail, Fixed(HeaderNotSent));
      } else {
        var line := HeaderLine(r, ContentTypeHeader);
        if ContentTypeMatches(line) {
          SetResponseProperty(ContentTypeCheck, line, Pass, NoMsg);
        } else {
          SetResponseProperty(ContentTypeCheck, if |line| > 0 then line else "", Fail,
                              Fixed(JsonTypeNotFound));
        }
      }
    }

    method ValidateBtcAddress(w: World, index: nat, network: string, environment: string, address: string)
      modifies this`responseProperties
      ensures responseProperties == old(responseProperties)
                + [BtcVerdict(AddressCheck(index), address, w.btc(LookupHostname(network, environment), address))]
    {
      var reply := w.btc(LookupHostname(network, environment), address);
      if reply.status == 200 {
        SetResponseProperty(AddressCheck(index), address, Pass, Fixed(AddressFound(reply.body)));
      } else {
        SetResponseProperty(AddressCheck(index), address, Fail, Fixed(AddressNotFound));
      }
    }

    method ValidateEthAddress(w: World, index: nat, network: string, environment: string, address: string)
      modifies this`responseProperties
      ensures responseProperties == old(responseProperties)
                + [EthVerdict(AddressCheck(index), address, w.eth(LookupHostname(network, environment), address))]
    {
      var reply := w.eth(LookupHostname(network, environment), address);
      if reply.status != 200 || reply.json.None? || reply.json.value.status == Some("0") {
        SetResponseProperty(AddressCheck(index), address, Fail, Fixed(AddressNotFound));
        return;
      }
      SetResponseProperty(AddressCheck(index), address, Pass, Fixed(AddressFound(reply.json.value.result)));
    }

    method ValidateXrpAddress(w: World, index: nat, network: string, environment: string, address: string)
      modifies this`responseProperties
      ensures var account := XrpAccount(w, address);
        responseProperties == old(responseProperties)
          + Recorded(XrpVerdict(AddressCheck(index), account, w.xrp(LookupHostname(network, environment), account)))
    {
      var hostname := LookupHostname(network, environment);
      var account := address;
      if |address| > 0 && address[0] == 'X' {
        account := w.decodeXAddress(address);
      }
      var reply := w.xrp(hostname, account);
      if reply.error == Some("actNotFound") {
        SetResponseProperty(AddressCheck(index), account, Fail, Fixed(AddressNotFound));
      } else if reply.accountData.Some? && reply.accountData.value.account == Some(account) {
        SetResponseProperty(AddressCheck(index), account, Pass, Fixed(AddressFound(reply.accountData.value.balance)));
      }
    }

    /** validateCryptoAddress: dispatch on the lower-cased network. */
    method ValidateCryptoAddress(w: World, index: nat, network: string, environment: string, address: string)
      modifies this`responseProperties
      ensures responseProperties == old(responseProperties) + Recorded(CryptoLookup(w, index, network, environment, address))
    {
      if Lower(network) == "btc" {
        ValidateBtcAddress(w, index, network, environment, address);
      } else if Lower(network) == "eth" {
        ValidateEthAddress(w, index, network, environment, address);
      } else if Lower(network) == "xrpl" {
        ValidateXrpAddress(w, index, network, environment, address);
      }
    }

    /** validateJsonAddressObject: the address schema, the details schema,
      * and for crypto details the lookup. */
    method ValidateJsonAddressObject(w: World, index: nat, a: Address, acc: seq<string>) returns (validationErrors: seq<string>)
      modifies this`responseProperties
      ensures validationErrors == acc + AddressErrors(w, a)
      ensures responseProperties == old(responseProperties) + AddressLookup(w, index, a)
    {
      validationErrors := ValidateJsonSchema(w, AddressDoc(a), AddressSchema, acc);
      if a.addressDetailsType.Some? && a.addressDetails.Some? {
        if a.addressDetailsType.value == AchDetailsType {
          validationErrors := ValidateJsonSchema(w, DetailsDoc(a.addressDetails.value), AchDetailsSchema, validationErrors);
        } else if a.addressDetailsType.value == CryptoDetailsType {
          validationErrors := ValidateJsonSchema(w, DetailsDoc(a.addressDetails.value), CryptoDetailsSchema, validationErrors);
          ValidateCryptoAddress(w, index, a.paymentNetwork, a.environment.GetOr(""), a.addressDetails.value.address);
        }
      }
    }

    /** validateRootLevelJson: the root schema, then every address in order. */
    method ValidateRootLevelJson(w: World, pi: PaymentInformation) returns (validationErrors: seq<string>)
      modifies this`responseProperties
      ensures validationErrors == RootErrors(w, pi)
      ensures responseProperties == old(responseProperties) + BodyLookups(w, pi)
    {
      validationErrors := ValidateJsonSchema(w, RootDoc(pi), PaymentInformationSchema, []);
      if pi.addresses.Some? {
        var addrs := pi.addresses.value;
        ghost var root := validationErrors;
        var i := 0;
        while i < |addrs|
          invariant 0 <= i <= |addrs|
          invariant validationErrors == root + AddressesErrors(w, addrs[..i])
          invariant responseProperties == old(responseProperties) + LookupVerdicts(w, addrs[..i])
        {
          ValidationStep(w, addrs, i, root, old(responseProperties));
          validationErrors := ValidateJsonAddressObject(w, i, addrs[i], validationErrors);
          i := i + 1;
        }
        assert addrs[..i] == addrs;
      }
    }

    method CheckResponseBodyForValidity(w: World, r: Response)
      modifies this`responseProperties
      ensures responseProperties == old(responseProperties) + BodyVerdicts(w, r)
    {
      match r.json
      case None =>
        SetResponseProperty(BodyJsonCheck, w.stripTags(r.body), Fail, Fixed(InvalidJson));
      case Some(pi) =>
        var validationErrors := ValidateRootLevelJson(w, pi);
        var shown := "<pre>" + ReplaceNewlines(w.prettyJson(pi)) + "</pre>";
        if |validationErrors| > 0 {
          SetResponseProperty(BodyJsonCheck, shown, Fail, Lines(validationErrors));
        } else {
          SetResponseProperty(BodyJsonCheck, shown, Pass, Fixed(ValidJson));
        }
    }

    method CheckResponseBodyForNetworkAndEnvironmentCorrectness(r: Response)
      requires IsNetworkSupported(networkType)
      modifies this`responseProperties
      ensures responseProperties == old(responseProperties) + [NetworkVerdict(networkType, AcceptHeader(networkType), r.json)]
    {
      var requestHeader := AcceptHeader(networkType);
      match r.json
      case None =>
        SetResponseProperty(NetworkMatchCheck, requestHeader, Fail, Text(""));
      case Some(pi) =>
        var headerPieces := DecomposeMediaType(requestHeader);
        if headerPieces.None? {
          SetResponseProperty(NetworkFoundCheck, "The requested network type cannot be found.", Fail, NoMsg);
          return;
        }
        var errs: seq<string> := [];
        if networkType != NetworkAll {
          errs := CollectNetworkErrors(pi.addresses.GetOr([]), headerPieces.value);
        }
        if |errs| > 0 {
          SetResponseProperty(NetworkMatchCheck, requestHeader, Fail, Lines(errs));
        } else {
          SetResponseProperty(NetworkMatchCheck, requestHeader, Pass, Text(""));
        }
    }

    method RunHeaderChecks(r: Response, probe: Response)
      modifies this`responseProperties
      ensures responseProperties == old(responseProperties) + HeaderVerdicts(r, probe)
    {
      CheckCorsHeaders(r, probe);
      CheckCacheControl(r);
      CheckContentType(r);
    }

    method RunBodyChecks(w: World, r: Response)
      requires IsNetworkSupported(networkType)
      modifies this`responseProperties
      ensures responseProperties == old(responseProperties) + BodyNetworkVerdicts(w, networkType, AcceptHeader(networkType), r)
    {
      CheckResponseBodyForValidity(w, r);
      CheckResponseBodyForNetworkAndEnvironmentCorrectness(r);
    }

    /** The checks makeRequest runs after a 200 answer. */
    method RunSuccessChecks(w: World, r: Response, probe: Response)
      requires IsNetworkSupported(networkType)
      modifies this`responseProperties
      ensures responseProperties == old(responseProperties)
                + SuccessVerdicts(w, networkType, AcceptHeader(networkType), r, probe)
    {
      ghost var before := responseProperties;
      RunHeaderChecks(r, probe);
      RunBodyChecks(w, r);
      AppendTwice(before, HeaderVerdicts(r, probe), BodyNetworkVerdicts(w, networkType, AcceptHeader(networkType), r));
    }

    /** makeRequest: true and the full verdict list when the server
      * answered, false with the connect error otherwise; the validation
      * counts as done only in the first case. */
    method MakeRequest(w: World) returns (ok: bool)
      requires IsNetworkSupported(networkType) && Valid()
      modifies this
      ensures payId == old(payId) && networkType == old(networkType) && errors == old(errors)
      ensures ok == w.fetch(RequestUrl(payId), AcceptHeader(networkType)).outcome.Received?
      ensures responseProperties == old(responseProperties) + RequestVerdicts(w, payId, networkType)
      ensures hasValidationOccurred == (old(hasValidationOccurred) || ok)
      ensures failError == if ok then old(failError)
                           else w.fetch(RequestUrl(payId), AcceptHeader(networkType)).outcome.message
      ensures Valid()
    {
      var url := RequestUrl(payId);
      var accept := AcceptHeader(networkType);
      var exchange := w.fetch(url, accept);
      ghost var timing := TimingVerdicts(exchange);
      if exchange.stats.Some? {
        CheckResponseTime(exchange.stats.value);
      } else {
        AppendNothing(responseProperties);
      }
      match exchange.outcome
      case ConnectFailed(message) =>
        failError := message;
        ok := false;
      case Received(r) =>
        CheckStatusCode(r);
        AppendTwice(old(responseProperties), timing, [StatusVerdict(r.status)]);
        if r.status == 200 {
          var probe := w.probe(url, accept);
          RunSuccessChecks(w, r, probe);
          AppendTwice(old(responseProperties), timing + [StatusVerdict(r.status)],
                      SuccessVerdicts(w, networkType, accept, r, probe));
        }
        hasValidationOccurred := true;
        ok := true;
    }

    /** getValidationScore, in hundredths of a percent: 0 before any
      * validation, otherwise the rounded share of the points. */
    method GetValidationScore() returns (score: nat)
      requires Valid()
      ensures !hasValidationOccurred ==> score == 0
      ensures hasValidationOccurred ==> score == ScoreHundredths(responseProperties)
      ensures score <= 10000
    {
      if !hasValidationOccurred {
        return 0;
      }
      var total := 0;
      var entries := |responseProperties|;
      var i := 0;
      while i < entries
        invariant 0 <= i <= entries
        invariant total == Points(responseProperties[..i])
      {
        var code := responseProperties[i].code;
        assert responseProperties[..i + 1][..i] == responseProperties[..i];
        if code == Pass {
          total := total + PassPoints;
        } else if code == Warn {
          total := total + 1;
        }
        i := i + 1;
      }
      assert responseProperties[..i] == responseProperties;
      score := (10000 * total + entries) / (PassPoints * entries);
      ScoreProperties(responseProperties);
    }
  }
}
