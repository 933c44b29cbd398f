/**
 * The checks that read the response body: the accumulation of JSON-schema
 * errors (validateJsonSchema, validateRootLevelJson,
 * validateJsonAddressObject), the crypto-address lookups they trigger
 * (validateCryptoAddress and the classification of each service's answer),
 * the "Response Body JSON" verdict and the body/network consistency check.
 */
module Body {
  import opened Wrappers
  import opened Text
  import opened Http
  import opened Verdicts
  import opened Networks

  // ---------------------------------------------------------------------------
  // validateJsonSchema
  // ---------------------------------------------------------------------------

  /** sprintf("[%s] %s", property, message) */
  function RenderError(e: SchemaError): string {
    "[" + e.property + "] " + e.message
  }

  function Rendered(es: seq<SchemaError>): seq<string> {
    seq(|es|, i requires 0 <= i < |es| => RenderError(es[i]))
  }

  /** The schema validator's errors for one object, rendered and appended to
    * the accumulator in the validator's order. */
  method ValidateJsonSchema(w: World, doc: Doc, file: SchemaFile, acc: seq<string>) returns (errors: seq<string>)
    ensures errors == acc + Rendered(w.schema(doc, file))
    ensures |errors| == |acc| + |w.schema(doc, file)|
    ensures forall i :: 0 <= i < |w.schema(doc, file)| ==> errors[|acc| + i] == RenderError(w.schema(doc, file)[i])
  {
    var found := w.schema(doc, file);
    errors := acc;
    var i := 0;
    while i < |found|
      invariant 0 <= i <= |found|
      invariant errors == acc + Rendered(found[..i])
    {
      assert Rendered(found[..i + 1]) == Rendered(found[..i]) + [RenderError(found[i])];
      errors := errors + [RenderError(found[i])];
      i := i + 1;
    }
    assert found[..i] == found;
  }

  // ---------------------------------------------------------------------------
  // validateJsonAddressObject and validateRootLevelJson
  // ---------------------------------------------------------------------------

  const AchDetailsType := "AchAddressDetails"
  const CryptoDetailsType := "CryptoAddressDetails"

  /** The details schema an address is checked against: only when both
    * addressDetailsType and addressDetails are set, and only for the two
    * known types. */
  function DetailsSchema(a: Address): Option<SchemaFile> {
    if a.addressDetailsType.None? || a.addressDetails.None? then None
    else if a.addressDetailsType.value == AchDetailsType then Some(AchDetailsSchema)
    else if a.addressDetailsType.value == CryptoDetailsType then Some(CryptoDetailsSchema)
    else None
  }

  /** The address's errors: the address schema, then its details schema. */
  function AddressErrors(w: World, a: Address): seq<string> {
    Rendered(w.schema(AddressDoc(a), AddressSchema))
    + match DetailsSchema(a)
      case None => []
      case Some(file) => Rendered(w.schema(DetailsDoc(a.addressDetails.value), file))
  }

  /** The errors of a list of addresses, in list order. */
  function AddressesErrors(w: World, addrs: seq<Address>): seq<string> {
    if addrs == [] then []
    else AddressesErrors(w, addrs[..|addrs| - 1]) + AddressErrors(w, addrs[|addrs| - 1])
  }

  /** validateRootLevelJson: the root schema, then each address when the
    * addresses field is set. */
  function RootErrors(w: World, pi: PaymentInformation): seq<string> {
    Rendered(w.schema(RootDoc(pi), PaymentInformationSchema))
    + match pi.addresses
      case None => []
      case Some(addrs) => AddressesErrors(w, addrs)
  }

  /** An address that passes every schema it is checked against. */
  predicate AddressClean(w: World, a: Address) {
    && w.schema(AddressDoc(a), AddressSchema) == []
    && (DetailsSchema(a).Some? ==> w.schema(DetailsDoc(a.addressDetails.value), DetailsSchema(a).value) == [])
  }

  lemma {:induction false} AddressesErrorsEmptyIff(w: World, addrs: seq<Address>)
    ensures AddressesErrors(w, addrs) == [] <==> forall i :: 0 <= i < |addrs| ==> AddressClean(w, addrs[i])
  {
    if addrs != [] {
      var init := addrs[..|addrs| - 1];
      AddressesErrorsEmptyIff(w, init);
      assert forall i :: 0 <= i < |init| ==> init[i] == addrs[i];
    }
  }

  /** The body is schema-clean exactly when the root and every address pass
    * every schema they are checked against. */
  lemma RootErrorsEmptyIff(w: World, pi: PaymentInformation)
    ensures RootErrors(w, pi) == [] <==>
            && w.schema(RootDoc(pi), PaymentInformationSchema) == []
            && (pi.addresses.Some? ==> forall i :: 0 <= i < |pi.addresses.value| ==> AddressClean(w, pi.addresses.value[i]))
  {
    if pi.addresses.Some? {
      AddressesErrorsEmptyIff(w, pi.addresses.value);
    }
  }

  // ---------------------------------------------------------------------------
  // validateCryptoAddress and the three lookups
  // ---------------------------------------------------------------------------


  /** validateBtcAddress: a 200 answer from blockchain.info validates the
    * address. */
  function BtcVerdict(check: Check, address: string, reply: BtcReply): Verdict {
    if reply.status == 200 then Verdict(check, address, Pass, Fixed(AddressFound(reply.body)))
    else Verdict(check, address, Fail, Fixed(AddressNotFound))
  }

  /** validateEthAddress: a non-200 answer, an undecodable body or a status
    * of "0" means the address was not found. */
  function EthVerdict(check: Check, address: string, reply: EthReply): Verdict {
    if reply.status != 200 || reply.json.None? || reply.json.value.status == Some("0") then
      Verdict(check, address, Fail, Fixed(AddressNotFound))
    else Verdict(check, address, Pass, Fixed(AddressFound(reply.json.value.result)))
  }

  /** validateXrpAddress: actNotFound fails, account data for the same
    * account passes, any other answer records nothing. */
  function XrpVerdict(check: Check, account: string, reply: XrpReply): Option<Verdict> {
    if reply.error == Some("actNotFound") then Some(Verdict(check, account, Fail, Fixed(AddressNotFound)))
    else if reply.accountData.Some? && reply.accountData.value.account == Some(account) then
      Some(Verdict(check, account, Pass, Fixed(AddressFound(reply.accountData.value.balance))))
    else None
  }

  /** An X-address is decoded to its classic account before the lookup. */
  function XrpAccount(w: World, address: string): string {
    if |address| > 0 && address[0] == 'X' then w.decodeXAddress(address) else address
  }

  /** validateCryptoAddress: dispatch on the lower-cased payment network;
    * any other network gets no lookup. */
  function CryptoLookup(w: World, index: nat, network: string, environment: string, address: string): Option<Verdict> {
    var check := AddressCheck(index);
    var hostname := LookupHostname(network, environment);
    if Lower(network) == "btc" then Some(BtcVerdict(check, address, w.btc(hostname, address)))
    else if Lower(network) == "eth" then Some(EthVerdict(check, address, w.eth(hostname, address)))
    else if Lower(network) == "xrpl" then
      var account := XrpAccount(w, address);
      XrpVerdict(check, account, w.xrp(hostname, account))
    else None
  }

  /** Only an address with CryptoAddressDetails (type and details both set)
    * triggers a lookup. */
  predicate IsCryptoEntry(a: Address) {
    a.addressDetailsType == Some(CryptoDetailsType) && a.addressDetails.Some?
  }

  /** The verdicts recorded for an optional verdict. */
  function Recorded(o: Option<Verdict>): seq<Verdict> {
    match o
    case None => []
    case Some(v) => [v]
  }

  /** The lookup verdict recorded for the address at `index`, if any. */
  function AddressLookup(w: World, index: nat, a: Address): seq<Verdict> {
    if !IsCryptoEntry(a) then []
    else Recorded(CryptoLookup(w, index, a.paymentNetwork, a.environment.GetOr(""), a.addressDetails.value.address))
  }

  /** The lookup verdicts of a list of addresses, numbered by position. */
  function LookupVerdicts(w: World, addrs: seq<Address>): seq<Verdict> {
    if addrs == [] then []
    else LookupVerdicts(w, addrs[..|addrs| - 1]) + AddressLookup(w, |addrs| - 1, addrs[|addrs| - 1])
  }

  /** One more address extends both the schema errors and the lookups by
    * that address's own. */
  lemma ValidationStep(w: World, addrs: seq<Address>, i: nat, root: seq<string>, before: seq<Verdict>)
    requires i < |addrs|
    ensures root + AddressesErrors(w, addrs[..i + 1]) == root + AddressesErrors(w, addrs[..i]) + AddressErrors(w, addrs[i])
    ensures before + LookupVerdicts(w, addrs[..i + 1]) == before + LookupVerdicts(w, addrs[..i]) + AddressLookup(w, i, addrs[i])
  {
    assert addrs[..i + 1][..i] == addrs[..i];
    AppendTwice(root, AddressesErrors(w, addrs[..i]), AddressErrors(w, addrs[i]));
    AppendTwice(before, LookupVerdicts(w, addrs[..i]), AddressLookup(w, i, addrs[i]));
  }

  /** The lookups recorded while the body is validated. */
  function BodyLookups(w: World, pi: PaymentInformation): seq<Verdict> {
    match pi.addresses
    case None => []
    case Some(addrs) => LookupVerdicts(w, addrs)
  }

  /** A network that has a lookup service. */
  predicate IsLookupNetwork(network: string) {
    Lower(network) == "btc" || Lower(network) == "eth" || Lower(network) == "xrpl"
  }

  /** The BTC lookup passes exactly on a 200 answer and reports the address;
    * ETH fails on a non-200 answer, a missing body or status "0". */
  lemma BtcEthClassification(w: World, index: nat, network: string, environment: string, address: string)
    ensures var hostname := LookupHostname(network, environment);
      var r := CryptoLookup(w, index, network, environment, address);
      && (Lower(network) == "btc" ==>
            && r.Some? && r.value.check == AddressCheck(index) && r.value.value == address
            && (r.value.code == Pass <==> w.btc(hostname, address).status == 200)
            && (r.value.code == Pass || r.value.code == Fail))
      && (Lower(network) == "eth" ==>
            var reply := w.eth(hostname, address);
            && r.Some? && r.value.check == AddressCheck(index) && r.value.value == address
            && (r.value.code == Fail <==>
                  reply.status != 200 || reply.json.None? || reply.json.value.status == Some("0"))
            && (r.value.code == Pass || r.value.code == Fail))
  {
  }

  /** XRPL: actNotFound fails, account data naming the (decoded) account
    * passes, anything else records no verdict; other networks are not
    * looked up. */
  lemma XrpClassification(w: World, index: nat, network: string, environment: string, address: string)
    ensures var hostname := LookupHostname(network, environment);
      var r := CryptoLookup(w, index, network, environment, address);
      var account := XrpAccount(w, address);
      var reply := w.xrp(hostname, account);
      && (Lower(network) == "xrpl" ==>
            && (r.Some? && r.value.code == Fail <==> reply.error == Some("actNotFound"))
            && (r.Some? && r.value.code == Pass <==>
                  reply.error != Some("actNotFound") && reply.accountData.Some? && reply.accountData.value.account == Some(account))
            && (r.Some? ==> r.value.check == AddressCheck(index) && r.value.value == account))
      && (!IsLookupNetwork(network) ==> r.None?)
  {
  }

  /** Every lookup verdict belongs to a crypto entry on a network with a
    * lookup service, and there is at most one per address. */
  lemma {:induction false} LookupsTrace(w: World, addrs: seq<Address>)
    ensures |LookupVerdicts(w, addrs)| <= |addrs|
    ensures forall v :: v in LookupVerdicts(w, addrs) ==>
              exists k :: 0 <= k < |addrs| && v.check == AddressCheck(k) && IsCryptoEntry(addrs[k])
                          && IsLookupNetwork(addrs[k].paymentNetwork)
  {
    if addrs != [] {
      var init := addrs[..|addrs| - 1];
      var last := |addrs| - 1;
      LookupsTrace(w, init);
      assert forall k :: 0 <= k < |init| ==> init[k] == addrs[k];
      forall v | v in AddressLookup(w, last, addrs[last])
        ensures v.check == AddressCheck(last) && IsCryptoEntry(addrs[last]) && IsLookupNetwork(addrs[last].paymentNetwork)
      {
        var a := addrs[last];
        XrpClassification(w, last, a.paymentNetwork, a.environment.GetOr(""), a.addressDetails.value.address);
      }
    }
  }

  /** Without a crypto entry no lookup is made. */
  lemma {:induction false} NoCryptoNoLookups(w: World, addrs: seq<Address>)
    requires forall k :: 0 <= k < |addrs| ==> !IsCryptoEntry(addrs[k])
    ensures LookupVerdicts(w, addrs) == []
  {
    if addrs != [] {
      var init := addrs[..|addrs| - 1];
      assert forall k :: 0 <= k < |init| ==> init[k] == addrs[k];
      NoCryptoNoLookups(w, init);
    }
  }

  // ---------------------------------------------------------------------------
  // checkResponseBodyForValidity
  // ---------------------------------------------------------------------------


  function BodyJsonVerdict(w: World, r: Response): Verdict {
    match r.json
    case None => Verdict(BodyJsonCheck, w.stripTags(r.body), Fail, Fixed(InvalidJson))
    case Some(pi) =>
      var errors := RootErrors(w, pi);
      var shown := "<pre>" + ReplaceNewlines(w.prettyJson(pi)) + "</pre>";
      if |errors| > 0 then Verdict(BodyJsonCheck, shown, Fail, Lines(errors))
      else Verdict(BodyJsonCheck, shown, Pass, Fixed(ValidJson))
  }

  /** The body passes exactly when it decodes and is schema-clean; a failing
    * decoded body lists its schema errors; the shown JSON has its newlines
    * turned into <br>. */
  lemma BodyJsonPassIff(w: World, r: Response)
    ensures var v := BodyJsonVerdict(w, r);
      && (v.code == Pass <==> r.json.Some? && RootErrors(w, r.json.value) == [])
      && (v.code == Pass || v.code == Fail)
      && (r.json.Some? && v.code == Fail ==> v.msg == Lines(RootErrors(w, r.json.value)))
      && (r.json.Some? ==> '\n' !in v.value)
      && (r.json.None? ==> v.value == w.stripTags(r.body))
  {
    if r.json.Some? {
      var s := ReplaceNewlines(w.prettyJson(r.json.value));
      assert BodyJsonVerdict(w, r).value == "<pre>" + s + "</pre>";
      assert '\n' !in s;
    }
  }

  // ---------------------------------------------------------------------------
  // checkResponseBodyForNetworkAndEnvironmentCorrectness
  // ---------------------------------------------------------------------------

  const PaymentNetworkMismatch := "The paymentNetwork does not match with request header."
  const EnvironmentMismatch := "The environment does not match with request header."

  /** The errors of one address against the header's tokens. */
  function AddressNetworkErrors(a: Address, parts: MediaParts): seq<string> {
    (if Lower(a.paymentNetwork) != Lower(parts.network) then [PaymentNetworkMismatch] else [])
    + (if a.environment.Some? && Lower(a.environment.value) != Lower(parts.environment) then [EnvironmentMismatch] else [])
  }

  /** An address that agrees with the header, case-insensitively. */
  predicate AddressMatches(a: Address, parts: MediaParts) {
    && Lower(a.paymentNetwork) == Lower(parts.network)
    && (a.environment.Some? ==> Lower(a.environment.value) == Lower(parts.environment))
  }

  /** $errors after the foreach over the addresses. */
  function NetworkErrors(addrs: seq<Address>, parts: MediaParts): seq<string> {
    if addrs == [] then []
    else NetworkErrors(addrs[..|addrs| - 1], parts) + AddressNetworkErrors(addrs[|addrs| - 1], parts)
  }

  lemma {:induction false} NetworkErrorsEmptyIff(addrs: seq<Address>, parts: MediaParts)
    ensures NetworkErrors(addrs, parts) == [] <==> forall i :: 0 <= i < |addrs| ==> AddressMatches(addrs[i], parts)
    ensures |NetworkErrors(addrs, parts)| <= 2 * |addrs|
  {
    if addrs != [] {
      var init := addrs[..|addrs| - 1];
      NetworkErrorsEmptyIff(init, parts);
      assert forall i :: 0 <= i < |init| ==> init[i] == addrs[i];
    }
  }

  /** The foreach over the addresses of the body. */
  method CollectNetworkErrors(addrs: seq<Address>, parts: MediaParts) returns (errors: seq<string>)
    ensures errors == NetworkErrors(addrs, parts)
  {
    errors := [];
    var i := 0;
    while i < |addrs|
      invariant 0 <= i <= |addrs|
      invariant errors == NetworkErrors(addrs[..i], parts)
    {
      var a := addrs[i];
      assert addrs[..i + 1][..i] == addrs[..i];
      if Lower(a.paymentNetwork) != Lower(parts.network) {
        errors := errors + [PaymentNetworkMismatch];
      }
      if a.environment.Some? && Lower(a.environment.value) != Lower(parts.environment) {
        errors := errors + [EnvironmentMismatch];
      }
      i := i + 1;
    }
    assert addrs[..i] == addrs;
  }

  /** The check for a request made for `networkType` with Accept header
    * `header`. */
  function NetworkVerdict(networkType: string, header: string, json: Option<PaymentInformation>): Verdict {
    match json
    case None => Verdict(NetworkMatchCheck, header, Fail, Text(""))
    case Some(pi) =>
      match DecomposeMediaType(header)
      case None => Verdict(NetworkFoundCheck, "The requested network type cannot be found.", Fail, NoMsg)
      case Some(parts) =>
        var errors := if networkType != NetworkAll then NetworkErrors(pi.addresses.GetOr([]), parts) else [];
        if |errors| > 0 then Verdict(NetworkMatchCheck, header, Fail, Lines(errors))
        else Verdict(NetworkMatchCheck, header, Pass, Text(""))
  }

  /** The header's tokens exist for every supported network; with a decoded
    * body the check passes exactly when the network is "all" or every
    * address agrees with the tokens, and it reports the Accept header. */
  lemma NetworkVerdictPassIff(networkType: string, json: Option<PaymentInformation>)
    requires IsNetworkSupported(networkType)
    ensures var v := NetworkVerdict(networkType, AcceptHeader(networkType), json);
      var parts := DecomposeMediaType(AcceptHeader(networkType));
      && parts.Some?
      && v.check == NetworkMatchCheck
      && v.value == AcceptHeader(networkType)
      && (v.code == Pass <==>
            json.Some? && (networkType == NetworkAll ||
              forall i :: 0 <= i < |json.value.addresses.GetOr([])| ==> AddressMatches(json.value.addresses.GetOr([])[i], parts.value)))
      && (v.code == Pass || v.code == Fail)
  {
    RegistryHeaderParts(networkType);
    var parts := DecomposeMediaType(AcceptHeader(networkType));
    if json.Some? {
      NetworkErrorsEmptyIff(json.value.addresses.GetOr([]), parts.value);
    }
  }

  /** A body listing a BTC address fails the check for an ETH mainnet
    * request. */
  lemma BtcAddressUnderEthFails(pi: PaymentInformation, k: nat)
    requires pi.addresses.Some? && k < |pi.addresses.value|
    requires pi.addresses.value[k].paymentNetwork == "BTC"
    ensures NetworkVerdict("eth-mainnet", AcceptHeader("eth-mainnet"), Some(pi)).code == Fail
  {
    RegistryShape("eth-mainnet", "eth", "-", "mainnet");
    var parts := DecomposeMediaType(AcceptHeader("eth-mainnet")).value;
    assert Lower("BTC")[0] == 'b';
    assert !AddressMatches(pi.addresses.value[k], parts);
    NetworkVerdictPassIff("eth-mainnet", Some(pi));
  }
}
