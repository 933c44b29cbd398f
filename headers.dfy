/**
 * The response checks that read only the status line and the headers:
 * checkStatusCode, checkResponseTime, the four CORS checks of
 * checkCORSHeaders (with the secondary OPTIONS probe), checkCacheControl
 * and checkContentType.  Each check is a function from the response to the
 * one verdict it records.
 */
module Headers {
  import opened Wrappers
  import opened Text
  import opened Http
  import opened Verdicts
  import opened ContentType
  import opened Networks


  // ---------------------------------------------------------------------------
  // checkStatusCode
  // ---------------------------------------------------------------------------


  function StatusVerdict(status: nat): Verdict {
    var code := if status == 200 then Pass else if 300 <= status < 400 then Warn else Fail;
    Verdict(StatusCheck, NatToString(status), code, NoMsg)
  }

  /** 200 passes, a redirect (300 to 399) warns, anything else fails; the
    * observed value is the decimal rendering of the status. */
  lemma StatusClassification(status: nat)
    ensures var v := StatusVerdict(status);
      && (v.code == Pass <==> status == 200)
      && (v.code == Warn <==> 300 <= status <= 399)
      && (v.code == Fail <==> status != 200 && !(300 <= status <= 399))
      && DecimalValue(v.value) == status
  {
    NatToStringValue(status);
  }

  // ---------------------------------------------------------------------------
  // checkResponseTime
  // ---------------------------------------------------------------------------


  function ResponseTimeVerdict(stats: TransferStats): Verdict {
    if stats.underFiveSeconds then Verdict(ResponseTimeCheck, stats.seconds + " seconds", Pass, NoMsg)
    else Verdict(ResponseTimeCheck, stats.seconds + " seconds", Fail, Fixed(TooSlow))
  }

  /** A transfer under five seconds passes, any other fails with the
    * explanation; both report the time in seconds. */
  lemma ResponseTimeClassification(stats: TransferStats)
    ensures var v := ResponseTimeVerdict(stats);
      && (v.code == Pass <==> stats.underFiveSeconds)
      && (v.code == Pass || v.code == Fail)
      && (v.msg == NoMsg <==> stats.underFiveSeconds)
      && v.value == stats.seconds + " seconds"
  {
  }

  // ---------------------------------------------------------------------------
  // Access-Control-Allow-Origin
  // ---------------------------------------------------------------------------

  const OriginHeader := "access-control-allow-origin"

  function AllowOriginVerdict(r: Response): Verdict {
    var line := HeaderLine(r, OriginHeader);
    if !HasHeader(r, OriginHeader) then Verdict(AllowOriginCheck, "", Fail, Fixed(HeaderNotLocated))
    else if line != "*" then Verdict(AllowOriginCheck, line, Fail, Fixed(HeaderIncorrect))
    else Verdict(AllowOriginCheck, line, Pass, NoMsg)
  }

  /** The check passes exactly for a literal "*". */
  lemma AllowOriginPassIff(r: Response)
    ensures AllowOriginVerdict(r).code == Pass <==> OriginHeader in r.headers && r.headers[OriginHeader] == "*"
    ensures AllowOriginVerdict(r).check == AllowOriginCheck
  {
  }

  // ---------------------------------------------------------------------------
  // Access-Control-Allow-Methods
  // ---------------------------------------------------------------------------

  const MethodsHeader := "access-control-allow-methods"
  const RequiredMethods: seq<string> := ["POST", "GET", "OPTIONS"]

  /** array_map('trim', explode(',', $headerValue)) */
  function MethodValues(line: string): seq<string> {
    TrimAll(Split(line, ','))
  }

  /** performSecondaryOptionsHeaderCheck on the OPTIONS probe's response:
    * its Allow-Methods header mentions OPTIONS, in any case. */
  predicate SecondaryOptionsFound(probe: Response) {
    HasHeader(probe, MethodsHeader) && HasInfix(Lower(HeaderLine(probe, MethodsHeader)), "options")
  }

  /** stripos: the probe finds OPTIONS exactly when its Allow-Methods line
    * holds the seven letters of "options" in a row, in any mix of cases. */
  lemma SecondaryOptionsFoundIff(probe: Response)
    ensures SecondaryOptionsFound(probe) <==>
      && HasHeader(probe, MethodsHeader)
      && exists i :: 0 <= i && i + 7 <= |HeaderLine(probe, MethodsHeader)|
                     && Lower(HeaderLine(probe, MethodsHeader)[i..][..7]) == "options"
  {
    var line := HeaderLine(probe, MethodsHeader);
    HasInfixIff(Lower(line), "options");
    forall i | 0 <= i && i + 7 <= |line|
      ensures OccursAt(Lower(line), "options", i) <==> Lower(line[i..][..7]) == "options"
    {
      LowerSlice(line, i, i + 7);
      assert line[i..][..7] == line[i..i + 7];
    }
  }

  /** in_array compares the method names exactly (neither is numeric). */
  predicate MethodSatisfied(values: seq<string>, m: string, optionsFound: bool) {
    m in values || (m == "OPTIONS" && optionsFound)
  }

  function MethodError(m: string): string {
    "Method [" + m + "] not supported."
  }

  function MethodErrorFor(values: seq<string>, m: string, optionsFound: bool): seq<string> {
    if MethodSatisfied(values, m, optionsFound) then [] else [MethodError(m)]
  }

  /** $methodErrors after the foreach over `methods`. */
  function MethodErrors(values: seq<string>, methods: seq<string>, optionsFound: bool): seq<string> {
    if methods == [] then []
    else MethodErrors(values, methods[..|methods| - 1], optionsFound)
         + MethodErrorFor(values, methods[|methods| - 1], optionsFound)
  }

  /** $msg after the foreach over `methods`. */
  function MethodNote(values: seq<string>, methods: seq<string>, optionsFound: bool): Msg {
    if "OPTIONS" in methods && "OPTIONS" !in values && optionsFound then Fixed(OptionsFoundByPreflight) else Text("")
  }

  function AllowMethodsVerdict(r: Response, probe: Response): Verdict {
    if !HasHeader(r, MethodsHeader) then Verdict(AllowMethodsCheck, "", Fail, Fixed(HeaderNotLocated))
    else
      var line := HeaderLine(r, MethodsHeader);
      var values := MethodValues(line);
      var found := SecondaryOptionsFound(probe);
      var errors := MethodErrors(values, RequiredMethods, found);
      if |errors| > 0 then Verdict(AllowMethodsCheck, line, Fail, Text(Implode(" ", errors)))
      else Verdict(AllowMethodsCheck, line, Pass, MethodNote(values, RequiredMethods, found))
  }

  /** The foreach over the required methods, consulting the probe only for
    * a missing OPTIONS. */
  method CollectMethodErrors(values: seq<string>, probe: Response) returns (errors: seq<string>, note: Msg)
    ensures errors == MethodErrors(values, RequiredMethods, SecondaryOptionsFound(probe))
    ensures note == MethodNote(values, RequiredMethods, SecondaryOptionsFound(probe))
  {
    ghost var found := SecondaryOptionsFound(probe);
    errors := [];
    note := Text("");
    var i := 0;
    while i < |RequiredMethods|
      invariant 0 <= i <= |RequiredMethods|
      invariant errors == MethodErrors(values, RequiredMethods[..i], found)
      invariant note == MethodNote(values, RequiredMethods[..i], found)
    {
      var m := RequiredMethods[i];
      assert RequiredMethods[..i + 1][..i] == RequiredMethods[..i];
      assert RequiredMethods[..i + 1] == RequiredMethods[..i] + [m];
      if m !in values {
        var wasFound := false;
        if m == "OPTIONS" {
          wasFound := SecondaryOptionsFound(probe);
          if wasFound {
            note := Fixed(OptionsFoundByPreflight);
          }
        }
        if !wasFound {
          errors := errors + [MethodError(m)];
        }
      }
      i := i + 1;
    }
    assert RequiredMethods[..i] == RequiredMethods;
  }

  /** No error is listed exactly when every method is satisfied. */
  lemma {:induction false} MethodErrorsEmptyIff(values: seq<string>, methods: seq<string>, optionsFound: bool)
    ensures MethodErrors(values, methods, optionsFound) == [] <==>
            forall i :: 0 <= i < |methods| ==> MethodSatisfied(values, methods[i], optionsFound)
  {
    if methods != [] {
      var init := methods[..|methods| - 1];
      MethodErrorsEmptyIff(values, init, optionsFound);
      assert forall i :: 0 <= i < |init| ==> init[i] == methods[i];
    }
  }

  /** The errors name the missing methods in the order POST, GET, OPTIONS. */
  lemma MethodErrorsInOrder(values: seq<string>, optionsFound: bool)
    ensures MethodErrors(values, RequiredMethods, optionsFound)
         == MethodErrorFor(values, "POST", optionsFound)
          + MethodErrorFor(values, "GET", optionsFound)
          + MethodErrorFor(values, "OPTIONS", optionsFound)
  {
    var ms := RequiredMethods;
    assert ms[..2] == ["POST", "GET"];
    assert ms[..2][..1] == ["POST"];
    assert ms[..2][..1][..0] == [];
    assert MethodErrors(values, ms[..2][..1], optionsFound) == MethodErrorFor(values, "POST", optionsFound);
    assert MethodErrors(values, ms[..2], optionsFound)
        == MethodErrorFor(values, "POST", optionsFound) + MethodErrorFor(values, "GET", optionsFound);
  }

  /** The check passes exactly when POST and GET are listed and OPTIONS is
    * listed or found by the probe; a pass carries the probe note when the
    * probe supplied OPTIONS, a failure carries only the joined errors. */
  lemma AllowMethodsPassIff(r: Response, probe: Response)
    ensures var v := AllowMethodsVerdict(r, probe);
      var values := MethodValues(HeaderLine(r, MethodsHeader));
      var found := SecondaryOptionsFound(probe);
      && (v.code == Pass <==>
            HasHeader(r, MethodsHeader) && "POST" in values && "GET" in values && ("OPTIONS" in values || found))
      && (v.code == Pass ==> v.msg == (if "OPTIONS" !in values && found then Fixed(OptionsFoundByPreflight) else Text("")))
      && (HasHeader(r, MethodsHeader) && v.code == Fail ==>
            v.msg == Text(Implode(" ", MethodErrors(values, RequiredMethods, found))))
      && v.check == AllowMethodsCheck
  {
    var values := MethodValues(HeaderLine(r, MethodsHeader));
    var found := SecondaryOptionsFound(probe);
    MethodErrorsEmptyIff(values, RequiredMethods, found);
    assert RequiredMethods[0] == "POST" && RequiredMethods[1] == "GET" && RequiredMethods[2] == "OPTIONS";
  }

  /** The OPTIONS probe matters only when OPTIONS is missing from the
    * header. */
  lemma ProbeOnlyForMissingOptions(r: Response, p: Response, q: Response)
    requires "OPTIONS" in MethodValues(HeaderLine(r, MethodsHeader))
    ensures AllowMethodsVerdict(r, p) == AllowMethodsVerdict(r, q)
  {
    var values := MethodValues(HeaderLine(r, MethodsHeader));
    MethodErrorsInOrder(values, SecondaryOptionsFound(p));
    MethodErrorsInOrder(values, SecondaryOptionsFound(q));
  }

  // ---------------------------------------------------------------------------
  // Access-Control-Allow-Headers and Access-Control-Expose-Headers
  // ---------------------------------------------------------------------------

  const AllowHeadersHeader := "access-control-allow-headers"
  const ExposeHeader := "access-control-expose-headers"

  /** The comma-separated pieces, trimmed and lower-cased. */
  function HeaderPieces(line: string): seq<string> {
    LowerAll(TrimAll(Split(line, ',')))
  }

  function AllowHeadersVerdict(r: Response): Verdict {
    if !HasHeader(r, AllowHeadersHeader) then Verdict(AllowHeadersCheck, "", Fail, Fixed(HeaderNotLocated))
    else
      var line := HeaderLine(r, AllowHeadersHeader);
      if "payid-version" !in HeaderPieces(line) then
        Verdict(AllowHeadersCheck, line, Fail, Fixed(PayIdVersionNotSpecified))
      else Verdict(AllowHeadersCheck, line, Pass, NoMsg)
  }

  /** A piece of the header line names `name`, ignoring surrounding blanks
    * and case. */
  predicate Lists(line: string, name: string) {
    exists k :: 0 <= k < |Split(line, ',')| && Lower(Trim(Split(line, ',')[k])) == name
  }

  lemma PiecesIff(line: string, name: string)
    ensures name in HeaderPieces(line) <==> Lists(line, name)
  {
    var ps := Split(line, ',');
    if name in HeaderPieces(line) {
      var k :| 0 <= k < |HeaderPieces(line)| && HeaderPieces(line)[k] == name;
      assert Lower(Trim(ps[k])) == name;
    }
    if Lists(line, name) {
      var k :| 0 <= k < |ps| && Lower(Trim(ps[k])) == name;
      assert HeaderPieces(line)[k] == name;
    }
  }

  /** Allow-Headers passes exactly when one of its pieces is PayID-Version,
    * in any case. */
  lemma AllowHeadersPassIff(r: Response)
    ensures AllowHeadersVerdict(r).code == Pass <==>
            HasHeader(r, AllowHeadersHeader) && Lists(HeaderLine(r, AllowHeadersHeader), "payid-version")
    ensures AllowHeadersVerdict(r).check == AllowHeadersCheck
  {
    PiecesIff(HeaderLine(r, AllowHeadersHeader), "payid-version");
  }

  const ExposedHeaders: seq<string> := ["PayID-Version", "PayID-Server-Version"]

  function ExposeError(h: string): string {
    "Header [" + h + "] not included."
  }

  /** $exposedErrors after the foreach over `headers`. */
  function ExposeErrors(pieces: seq<string>, headers: seq<string>): seq<string> {
    if headers == [] then []
    else
      var h := headers[|headers| - 1];
      ExposeErrors(pieces, headers[..|headers| - 1]) + (if Lower(h) in pieces then [] else [ExposeError(h)])
  }

  method CollectExposeErrors(pieces: seq<string>) returns (errors: seq<string>)
    ensures errors == ExposeErrors(pieces, ExposedHeaders)
  {
    errors := [];
    var i := 0;
    while i < |ExposedHeaders|
      invariant 0 <= i <= |ExposedHeaders|
      invariant errors == ExposeErrors(pieces, ExposedHeaders[..i])
    {
      var h := ExposedHeaders[i];
      assert ExposedHeaders[..i + 1][..i] == ExposedHeaders[..i];
      if Lower(h) !in pieces {
        errors := errors + [ExposeError(h)];
      }
      i := i + 1;
    }
    assert ExposedHeaders[..i] == ExposedHeaders;
  }

  function ExposeHeadersVerdict(r: Response): Verdict {
    if !HasHeader(r, ExposeHeader) then Verdict(ExposeHeadersCheck, "", Fail, Fixed(HeaderNotLocated))
    else
      var line := HeaderLine(r, ExposeHeader);
      var errors := ExposeErrors(HeaderPieces(line), ExposedHeaders);
      if |errors| > 0 then Verdict(ExposeHeadersCheck, line, Fail, Text(Implode(" ", errors)))
      else Verdict(ExposeHeadersCheck, line, Pass, NoMsg)
  }

  /** No error is listed exactly when every header is among the pieces. */
  lemma {:induction false} ExposeErrorsEmptyIff(pieces: seq<string>, headers: seq<string>)
    ensures ExposeErrors(pieces, headers) == [] <==> forall i :: 0 <= i < |headers| ==> Lower(headers[i]) in pieces
  {
    if headers != [] {
      var init := headers[..|headers| - 1];
      ExposeErrorsEmptyIff(pieces, init);
      assert forall i :: 0 <= i < |init| ==> init[i] == headers[i];
    }
  }

  /** Expose-Headers passes exactly when it lists both PayID-Version and
    * PayID-Server-Version, in any case; the errors come in that order. */
  lemma ExposeHeadersPassIff(r: Response)
    ensures var line := HeaderLine(r, ExposeHeader);
      && (ExposeHeadersVerdict(r).code == Pass <==>
            HasHeader(r, ExposeHeader) && Lists(line, Lower("PayID-Version")) && Lists(line, Lower("PayID-Server-Version")))
      && ExposeErrors(HeaderPieces(line), ExposedHeaders)
         == (if Lower("PayID-Version") in HeaderPieces(line) then [] else [ExposeError("PayID-Version")])
          + (if Lower("PayID-Server-Version") in HeaderPieces(line) then [] else [ExposeError("PayID-Server-Version")])
      && ExposeHeadersVerdict(r).check == ExposeHeadersCheck
  {
    var line := HeaderLine(r, ExposeHeader);
    ExposeErrorsEmptyIff(HeaderPieces(line), ExposedHeaders);
    PiecesIff(line, Lower("PayID-Version"));
    PiecesIff(line, Lower("PayID-Server-Version"));
    var pieces := HeaderPieces(line);
    assert ExposedHeaders[..1] == ["PayID-Version"];
    assert ExposedHeaders[..1][..0] == [];
    assert ExposeErrors(pieces, ExposedHeaders[..1])
        == (if Lower("PayID-Version") in pieces then [] else [ExposeError("PayID-Version")]);
  }

  // ---------------------------------------------------------------------------
  // checkCacheControl
  // ---------------------------------------------------------------------------

  const CacheHeader := "cache-control"

  function CacheControlVerdict(r: Response): Verdict {
    if !HasHeader(r, CacheHeader) then Verdict(CacheControlCheck, "", Fail, Fixed(HeaderNotSet))
    else
      var line := HeaderLine(r, CacheHeader);
      if !HasInfix(line, "no-store") then
        Verdict(CacheControlCheck, line, Fail, Fixed(NoStoreExpected))
      else Verdict(CacheControlCheck, line, Pass, NoMsg)
  }

  /** Cache-Control passes exactly when "no-store" occurs in it, with that
    * case. */
  lemma CacheControlPassIff(r: Response)
    ensures CacheControlVerdict(r).code == Pass <==>
            HasHeader(r, CacheHeader) && exists i :: OccursAt(HeaderLine(r, CacheHeader), "no-store", i)
    ensures CacheControlVerdict(r).check == CacheControlCheck
  {
    HasInfixIff(HeaderLine(r, CacheHeader), "no-store");
  }

  // ---------------------------------------------------------------------------
  // checkContentType
  // ---------------------------------------------------------------------------

  const ContentTypeHeader := "content-type"

  function ContentTypeVerdict(r: Response): Verdict {
    if !HasHeader(r, ContentTypeHeader) then
      Verdict(ContentTypeHeaderCheck, "", Fail, Fixed(HeaderNotSent))
    else
      var line := HeaderLine(r, ContentTypeHeader);
      if ContentTypeMatches(line) then Verdict(ContentTypeCheck, line, Pass, NoMsg)
      else Verdict(ContentTypeCheck, if |line| > 0 then line else "", Fail,
                   Fixed(JsonTypeNotFound))
  }

  /** Content-Type passes exactly when the regular expression matches the
    * header line, and always reports the line it saw. */
  lemma ContentTypePassIff(r: Response)
    ensures ContentTypeVerdict(r).code == Pass <==>
            HasHeader(r, ContentTypeHeader) && RegexMatches(HeaderLine(r, ContentTypeHeader))
    ensures ContentTypeVerdict(r).value == HeaderLine(r, ContentTypeHeader)
    ensures ContentTypeVerdict(r).check == (if HasHeader(r, ContentTypeHeader) then ContentTypeCheck else ContentTypeHeaderCheck)
  {
    ContentTypeRegex(HeaderLine(r, ContentTypeHeader));
  }

  /** A server that answers with the media type it was asked for passes:
    * application/<subtype>+json matches for a subtype of lower-case letters
    * and hyphens. */
  lemma EchoedMediaTypePasses(subtype: string)
    requires forall i :: 0 <= i < |subtype| ==> 'a' <= subtype[i] <= 'z' || subtype[i] == '-'
    ensures ContentTypeMatches(MediaType(subtype))
  {
    var h := MediaType(subtype);
    var t := subtype + "+json";
    assert h == TypePrefix + t;
    assert forall i :: 0 <= i < |h| ==> !('A' <= h[i] <= 'Z') by {
      forall i | 0 <= i < |h| ensures !('A' <= h[i] <= 'Z') {
        if i < |TypePrefix| {
          assert h[i] == TypePrefix[i];
        } else {
          assert h[i] == t[i - |TypePrefix|];
        }
      }
    }
    LowerUnchanged(h);
    assert forall j :: 0 <= j < |subtype| ==> IsWordOrHyphen(t[j]);
    assert t[|subtype| + 1..|subtype| + 5] == "json";
    assert h[..|TypePrefix|] == TypePrefix && h[|TypePrefix|..] == t;
    assert TailAt(t, |subtype|, |subtype| + 1);
    assert PatternAt(h, 0, |subtype|, |subtype| + 1);
    ContentTypeRegex(h);
  }

  /** Every check of a missing header fails and reports the empty string. */
  lemma MissingHeadersFail(r: Response, probe: Response)
    ensures !HasHeader(r, OriginHeader) ==> AllowOriginVerdict(r).code == Fail && AllowOriginVerdict(r).value == ""
    ensures !HasHeader(r, MethodsHeader) ==>
              AllowMethodsVerdict(r, probe).code == Fail && AllowMethodsVerdict(r, probe).value == ""
    ensures !HasHeader(r, AllowHeadersHeader) ==>
              AllowHeadersVerdict(r).code == Fail && AllowHeadersVerdict(r).value == ""
    ensures !HasHeader(r, ExposeHeader) ==> ExposeHeadersVerdict(r).code == Fail && ExposeHeadersVerdict(r).value == ""
    ensures !HasHeader(r, CacheHeader) ==> CacheControlVerdict(r).code == Fail && CacheControlVerdict(r).value == ""
    ensures !HasHeader(r, ContentTypeHeader) ==>
              ContentTypeVerdict(r).code == Fail && ContentTypeVerdict(r).value == ""
  {
  }

  /** The four CORS verdicts, in the order checkCORSHeaders records them. */
  function CorsVerdicts(r: Response, probe: Response): seq<Verdict> {
    [AllowOriginVerdict(r), AllowMethodsVerdict(r, probe), AllowHeadersVerdict(r), ExposeHeadersVerdict(r)]
  }
}
