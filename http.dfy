/**
 * What the validator sees of the outside world.  The primary GET, the
 * secondary OPTIONS probe, the three lookup services, the X-address decoder,
 * the JSON-schema library, json_encode's pretty printer and strip_tags are
 * not modelled; a World value supplies their results as plain functions of
 * their inputs.
 */
module Http {
  import opened Wrappers

  /** An HTTP response: the status code, each header's line keyed by its
    * lower-cased name (getHeaderLine joins repeated values), the raw body,
    * and json_decode of the body when that is a (truthy) object. */
  datatype Response = Response(
    status: nat,
    headers: map<string, string>,
    body: string,
    json: Option<PaymentInformation>)

  /** The response's hasHeader for a lower-cased header name. */
  predicate HasHeader(r: Response, name: string) {
    name in r.headers
  }

  /** getHeaderLine: the empty string when the header is absent. */
  function HeaderLine(r: Response, name: string): string {
    if name in r.headers then r.headers[name] else ""
  }

  /** The decoded PayID body: the parts of it the validator reads. */
  datatype PaymentInformation = PaymentInformation(addresses: Option<seq<Address>>)

  datatype Address = Address(
    paymentNetwork: string,
    environment: Option<string>,
    addressDetailsType: Option<string>,
    addressDetails: Option<AddressDetails>)

  datatype AddressDetails = AddressDetails(address: string)

  /** What Guzzle's on_stats callback reports: whether the transfer took
    * less than five seconds, and the transfer time as PHP renders it. */
  datatype TransferStats = TransferStats(underFiveSeconds: bool, seconds: string)

  /** The primary request: a response, or the message of the connect
    * exception. */
  datatype Outcome = Received(response: Response) | ConnectFailed(message: string)

  /** The transfer statistics, when on_stats fired, and the outcome. */
  datatype Exchange = Exchange(stats: Option<TransferStats>, outcome: Outcome)

  /** blockchain.info's address-balance reply. */
  datatype BtcReply = BtcReply(status: nat, body: string)

  /** etherscan's balance reply: status code and the decoded JSON object. */
  datatype EthReply = EthReply(status: nat, json: Option<EthBody>)
  datatype EthBody = EthBody(status: Option<string>, result: string)

  /** rippled's account_info reply: result.error and result.account_data. */
  datatype XrpReply = XrpReply(error: Option<string>, accountData: Option<AccountData>)
  datatype AccountData = AccountData(account: Option<string>, balance: string)

  /** The four schema files under ./schemas/. */
  datatype SchemaFile = PaymentInformationSchema | AddressSchema | AchDetailsSchema | CryptoDetailsSchema
  {
    function FileName(): string {
      match this
      case PaymentInformationSchema => "payment-information.json"
      case AddressSchema => "address.json"
      case AchDetailsSchema => "ach-address-details.json"
      case CryptoDetailsSchema => "crypto-address-details.json"
    }
  }

  /** The object handed to the schema validator. */
  datatype Doc = RootDoc(root: PaymentInformation) | AddressDoc(address: Address) | DetailsDoc(details: AddressDetails)

  /** One error from the schema validator. */
  datatype SchemaError = SchemaError(property: string, message: string)

  datatype World = World(
    fetch: (string, string) -> Exchange,                 // GET url, Accept header
    probe: (string, string) -> Response,                 // OPTIONS url, Accept header
    schema: (Doc, SchemaFile) -> seq<SchemaError>,       // JsonSchema\Validator errors
    prettyJson: PaymentInformation -> string,            // json_encode(.., JSON_PRETTY_PRINT)
    stripTags: string -> string,                         // strip_tags
    btc: (string, string) -> BtcReply,                   // hostname, address
    eth: (string, string) -> EthReply,                   // hostname, address
    decodeXAddress: string -> string,                    // xrpaddress.info decode, 'account'
    xrp: (string, string) -> XrpReply)                   // hostname, account
}
