/**
 * The static table of supported payment networks (requestTypes): for each
 * network key its display label, the Accept media type of the PayID
 * request, and for crypto networks the hostname of the service used to look
 * addresses up.  Also the decomposition of a media type into network and
 * environment tokens used by the body/network consistency check.
 */
module Networks {
  import opened Wrappers
  import opened Text

  datatype RequestType = RequestType(title: string, header: string, hostname: Option<string>)

  const NetworkAll := "all"
  const NetworkAch := "ach"

  const RequestTypes: map<string, RequestType> := map[
    "btc-mainnet" := RequestType("BTC (mainnet)", MediaType("btc-mainnet"), Some("https://blockchain.info")),
    "btc-testnet" := RequestType("BTC (testnet)", MediaType("btc-testnet"), Some("https://testnet.blockchain.info")),
    "eth-mainnet" := RequestType("ETH (mainnet)", MediaType("eth-mainnet"), Some("https://api.etherscan.io")),
    "eth-ropsten" := RequestType("ETH (ropsten)", MediaType("eth-ropsten"), Some("https://api-ropsten.etherscan.io")),
    "eth-kovan" := RequestType("ETH (kovan)", MediaType("eth-kovan"), Some("https://api-kovan.etherscan.io")),
    "eth-rinkeby" := RequestType("ETH (rinkeby)", MediaType("eth-rinkeby"), Some("https://api-rinkkeby.etherscan.io")),
    "xrpl-mainnet" := RequestType("XRP (mainnet)", MediaType("xrpl-mainnet"), Some("https://s1.ripple.com:51234")),
    "xrpl-testnet" := RequestType("XRP (testnet)", MediaType("xrpl-testnet"), Some("https://s.altnet.rippletest.net:51234")),
    "xrpl-devnet" := RequestType("XRP (devnet)", MediaType("xrpl-devnet"), Some("https://s.devnet.rippletest.net:51234")),
    NetworkAch := RequestType("ACH", MediaType("ach"), None),
    NetworkAll := RequestType("All", MediaType("payid"), None)
  ]

  /** application/<subtype>+json, the form every header of the table takes. */
  function MediaType(subtype: string): string {
    MediaPrefix + subtype + "+json"
  }

  /** The eleven keys, in the table's order. */
  const SupportedNetworks: seq<string> := [
    "btc-mainnet", "btc-testnet",
    "eth-mainnet", "eth-ropsten", "eth-kovan", "eth-rinkeby",
    "xrpl-mainnet", "xrpl-testnet", "xrpl-devnet",
    "ach", "all"
  ]

  /** isset($this->requestTypes[$networkType]) */
  predicate IsNetworkSupported(networkType: string) {
    networkType in RequestTypes
  }

  /** A network is supported exactly when it is one of the eleven keys; no
    * other name, not even a case variant, is coerced onto one of them. */
  lemma SupportedIffListed(networkType: string)
    ensures IsNetworkSupported(networkType) <==> networkType in SupportedNetworks
  {
  }

  /** The Accept header sent for a supported network. */
  function AcceptHeader(networkType: string): string
    requires IsNetworkSupported(networkType)
  {
    RequestTypes[networkType].header
  }

  /** $this->requestTypes[strtolower($network . '-' . $environment)]['hostname'],
    * the empty string when the key or the hostname is missing. */
  function LookupHostname(network: string, environment: string): string {
    var key := Lower(network + "-" + environment);
    if key in RequestTypes && RequestTypes[key].hostname.Some? then RequestTypes[key].hostname.value else ""
  }

  /** The lookup finds a service exactly for the nine crypto keys, after
    * lower-casing both tokens; the ACH, wildcard and unknown keys give "".
    * The case of the tokens does not matter. */
  lemma LookupHostnameIff(network: string, environment: string)
    ensures var key := Lower(network + "-" + environment);
      && (LookupHostname(network, environment) != "" <==> key in RequestTypes && key != NetworkAch && key != NetworkAll)
      && (key in RequestTypes && key != NetworkAch && key != NetworkAll ==>
            Some(LookupHostname(network, environment)) == RequestTypes[key].hostname)
    ensures LookupHostname(network, environment) == LookupHostname(Lower(network), Lower(environment))
  {
    var key := network + "-" + environment;
    var folded := Lower(network) + "-" + Lower(environment);
    assert |folded| == |key|;
    forall i | 0 <= i < |key| ensures Lower(folded)[i] == Lower(key)[i] {
      if i < |network| {
        assert folded[i] == LowerChar(network[i]) && key[i] == network[i];
      } else if i > |network| {
        assert folded[i] == LowerChar(environment[i - |network| - 1]) && key[i] == environment[i - |network| - 1];
      }
    }
    assert Lower(folded) == Lower(key);
  }

  // ---------------------------------------------------------------------------
  // '/application\/([\w]+)[\-]*([^\+]+)?\+([\w]+)/' applied to a request header
  // ---------------------------------------------------------------------------

  datatype MediaParts = MediaParts(network: string, environment: string)

  predicate IsHyphen(c: char) { c == '-' }
  predicate IsNotPlus(c: char) { c != '+' }

  /** Network and environment tokens of a media type that starts with
    * "application/": the word characters after the slash, then (after any
    * hyphens) everything up to the '+', which must be followed by a word
    * character.  An absent environment group reads as "". */
  function DecomposeMediaType(h: string): Option<MediaParts> {
    if |h| < |MediaPrefix| || h[..|MediaPrefix|] != MediaPrefix then None
    else DecomposeSubtype(h[|MediaPrefix|..])
  }

  const MediaPrefix := "application/"

  /** The part of the match after "application/".  `[\w]+` and `[\-]*` are
    * greedy, so the network is the whole run of word characters and the
    * environment starts after every hyphen; `([^\+]+)?\+([\w]+)` then
    * takes everything up to the first '+' and needs a word character after
    * it. */
  function DecomposeSubtype(t: string): Option<MediaParts> {
    var network := TakeWhile(t, IsWordChar);
    var v := DropWhile(DropWhile(t, IsWordChar), IsHyphen);
    var x := DropWhile(v, IsNotPlus);
    if network != [] && |x| >= 2 && IsWordChar(x[1]) then Some(MediaParts(network, TakeWhile(v, IsNotPlus)))
    else None
  }

  /** <network><hyphens><environment><tail> decomposes into its network and
    * environment when the tail is '+' and a word character onwards. */
  lemma SubtypeOf(network: string, hyphens: string, environment: string, tail: string)
    requires |network| > 0 && forall i :: 0 <= i < |network| ==> IsWordChar(network[i])
    requires forall i :: 0 <= i < |hyphens| ==> hyphens[i] == '-'
    requires forall i :: 0 <= i < |environment| ==> environment[i] != '+'
    requires environment == [] || (environment[0] != '-' && (|hyphens| > 0 || !IsWordChar(environment[0])))
    requires |tail| >= 2 && tail[0] == '+' && IsWordChar(tail[1])
    ensures DecomposeSubtype(network + hyphens + environment + tail)
            == Some(MediaParts(network, environment))
  {
    var rest2 := environment + tail;
    var rest := hyphens + rest2;
    assert network + hyphens + environment + tail == network + rest;
    assert rest2[0] == (if environment != [] then environment[0] else '+');
    assert rest[0] == (if hyphens != [] then hyphens[0] else rest2[0]);
    WhileOf(network, rest, IsWordChar);
    WhileOf(hyphens, rest2, IsHyphen);
    WhileOf(environment, tail, IsNotPlus);
  }

  /** Without a '+' followed by a word character after "application/"
    * nothing decomposes. */
  lemma NoPlusNoParts(t: string)
    requires forall i :: 0 <= i < |t| ==> t[i] != '+'
    ensures DecomposeSubtype(t) == None
  {
    DropWhileKeeps(t, IsWordChar, IsNotPlus);
    var u := DropWhile(t, IsWordChar);
    DropWhileKeeps(u, IsHyphen, IsNotPlus);
    var v := DropWhile(u, IsHyphen);
    DropWhileKeeps(v, IsNotPlus, IsNotPlus);
  }

  /** application/<subtype> decomposes as its subtype does. */
  lemma DecomposeOf(t: string)
    ensures DecomposeMediaType(MediaPrefix + t) == DecomposeSubtype(t)
  {
    assert (MediaPrefix + t)[..|MediaPrefix|] == MediaPrefix;
    assert (MediaPrefix + t)[|MediaPrefix|..] == t;
  }

  /** A registry-shaped header, application/<network>[-<environment>]+json. */
  lemma RegistryShape(key: string, network: string, hyphens: string, environment: string)
    requires key == network + hyphens + environment
    requires |network| > 0 && forall i :: 0 <= i < |network| ==> 'a' <= network[i] <= 'z'
    requires hyphens == "-" || (hyphens == "" && environment == "")
    requires forall i :: 0 <= i < |environment| ==> 'a' <= environment[i] <= 'z'
    ensures DecomposeMediaType(MediaType(key)) == Some(MediaParts(network, environment))
  {
    SubtypeOf(network, hyphens, environment, "+json");
    DecomposeOf(key + "+json");
    assert MediaType(key) == MediaPrefix + (key + "+json");
  }

  lemma KeyIsLowerCase(network: string, environment: string)
    requires forall i :: 0 <= i < |network| ==> 'a' <= network[i] <= 'z'
    requires forall i :: 0 <= i < |environment| ==> 'a' <= environment[i] <= 'z'
    ensures Lower(network + "-" + environment) == network + "-" + environment
  {
    var key := network + "-" + environment;
    assert forall i :: 0 <= i < |key| ==> key[i] == '-' || 'a' <= key[i] <= 'z';
    LowerUnchanged(key);
  }

  /** The header of a supported network decomposes; the tokens recover the
    * network key (the wildcard network's header names "payid" instead), and
    * for a network with a lookup service the hostname found from the tokens
    * is that network's own. */
  ghost predicate HeaderRecoversNetwork(networkType: string)
    requires IsNetworkSupported(networkType)
  {
    var p := DecomposeMediaType(AcceptHeader(networkType));
    && p.Some?
    && (networkType == NetworkAll ==> p.value == MediaParts("payid", ""))
    && (networkType != NetworkAll ==>
          networkType == p.value.network + (if p.value.environment == "" then "" else "-" + p.value.environment))
    && (RequestTypes[networkType].hostname.Some? ==>
          LookupHostname(p.value.network, p.value.environment) == RequestTypes[networkType].hostname.value)
  }

  /** Every header of the table is application/<key>+json, except the
    * wildcard network's, which names "payid". */
  lemma EntryHeader(networkType: string)
    requires IsNetworkSupported(networkType)
    ensures AcceptHeader(networkType) == MediaType(if networkType == NetworkAll then "payid" else networkType)
  {
  }

  /** RegistryHeaderParts for one crypto network. */
  lemma CryptoHeaderParts(networkType: string, network: string, environment: string)
    requires networkType in RequestTypes && networkType != NetworkAll
    requires networkType == network + "-" + environment
    requires |network| > 0 && forall i :: 0 <= i < |network| ==> 'a' <= network[i] <= 'z'
    requires |environment| > 0 && forall i :: 0 <= i < |environment| ==> 'a' <= environment[i] <= 'z'
    ensures HeaderRecoversNetwork(networkType)
  {
    EntryHeader(networkType);
    RegistryShape(networkType, network, "-", environment);
    KeyIsLowerCase(network, environment);
    assert network + "-" + environment == network + ("-" + environment);
  }

  lemma AchHeaderParts(networkType: string)
    requires networkType == NetworkAch
    ensures HeaderRecoversNetwork(networkType)
  {
    RegistryShape(networkType, "ach", "", "");
    assert networkType == "ach" + "";
  }

  lemma AllHeaderParts(networkType: string)
    requires networkType == NetworkAll
    ensures HeaderRecoversNetwork(networkType)
  {
    RegistryShape("payid", "payid", "", "");
  }

  lemma BtcHeaderParts(networkType: string)
    requires networkType in {"btc-mainnet", "btc-testnet"}
    ensures HeaderRecoversNetwork(networkType)
  {
    if networkType == "btc-mainnet" {
      CryptoHeaderParts(networkType, "btc", "mainnet");
    } else {
      CryptoHeaderParts(networkType, "btc", "testnet");
    }
  }

  lemma EthHeaderParts(networkType: string)
    requires networkType in {"eth-mainnet", "eth-ropsten", "eth-kovan", "eth-rinkeby"}
    ensures HeaderRecoversNetwork(networkType)
  {
    if networkType == "eth-mainnet" {
      CryptoHeaderParts(networkType, "eth", "mainnet");
    } else if networkType == "eth-ropsten" {
      CryptoHeaderParts(networkType, "eth", "ropsten");
    } else if networkType == "eth-kovan" {
      CryptoHeaderParts(networkType, "eth", "kovan");
    } else {
      CryptoHeaderParts(networkType, "eth", "rinkeby");
    }
  }

  lemma XrpHeaderParts(networkType: string)
    requires networkType in {"xrpl-mainnet", "xrpl-testnet", "xrpl-devnet"}
    ensures HeaderRecoversNetwork(networkType)
  {
    if networkType == "xrpl-mainnet" {
      CryptoHeaderParts(networkType, "xrpl", "mainnet");
    } else if networkType == "xrpl-testnet" {
      CryptoHeaderParts(networkType, "xrpl", "testnet");
    } else {
      CryptoHeaderParts(networkType, "xrpl", "devnet");
    }
  }

  /** Every registry header decomposes into tokens that name its own
    * network, and lead the hostname lookup back to its own service. */
  lemma RegistryHeaderParts(networkType: string)
    requires IsNetworkSupported(networkType)
    ensures HeaderRecoversNetwork(networkType)
  {
    if networkType == NetworkAch {
      AchHeaderParts(networkType);
    } else if networkType == NetworkAll {
      AllHeaderParts(networkType);
    } else if networkType in {"xrpl-mainnet", "xrpl-testnet", "xrpl-devnet"} {
      XrpHeaderParts(networkType);
    } else if networkType in {"btc-mainnet", "btc-testnet"} {
      BtcHeaderParts(networkType);
    } else {
      EthHeaderParts(networkType);
    }
  }
}
