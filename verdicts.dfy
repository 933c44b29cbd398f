/**
 * The verdict records the validator accumulates (setResponseProperty) and
 * the validation score computed from them (getValidationScore).
 */
module Verdicts {
  import opened Text

  /** The check that recorded a verdict; its label is the text the
    * validator shows. */
  datatype Check =
    | StatusCheck | ResponseTimeCheck
    | AllowOriginCheck | AllowMethodsCheck | AllowHeadersCheck | ExposeHeadersCheck
    | CacheControlCheck | ContentTypeHeaderCheck | ContentTypeCheck
    | AddressCheck(index: nat)
    | BodyJsonCheck | NetworkMatchCheck | NetworkFoundCheck
  {
    function Label(): string {
      match this
      case StatusCheck => "HTTP Status Code"
      case ResponseTimeCheck => "Response Time"
      case AllowOriginCheck => "Header Check / Access-Control-Allow-Origin"
      case AllowMethodsCheck => "Header Check / Access-Control-Allow-Methods"
      case AllowHeadersCheck => "Header Check / Access-Control-Allow-Headers"
      case ExposeHeadersCheck => "Header Check / Access-Control-Expose-Headers"
      case CacheControlCheck => "Header Check / Cache-Control"
      case ContentTypeHeaderCheck => "Header Check / Content-Type"
      case ContentTypeCheck => "Content Type"
      case AddressCheck(index) => "Address[" + NatToString(index) + "] verification"
      case BodyJsonCheck => "Response Body JSON"
      case NetworkMatchCheck => "Response Body Addresses Match Requested Headers"
      case NetworkFoundCheck => "Response Body Matches Requested Network"
    }
  }

  datatype Code = Pass | Warn | Fail

  /** The msg slot: null, a string, or a list of strings; the fixed
    * messages of the checks are written as Notes. */
  datatype Msg = NoMsg | Text(text: string) | Lines(lines: seq<string>) | Fixed(note: Note)

  /** The fixed messages the checks attach to their verdicts. */
  datatype Note =
    | TooSlow
    | HeaderNotLocated | HeaderIncorrect | OptionsFoundByPreflight | PayIdVersionNotSpecified
    | HeaderNotSet | NoStoreExpected | HeaderNotSent | JsonTypeNotFound
    | AddressFound(balance: string) | AddressNotFound
    | ValidJson | InvalidJson
  {
    function Message(): string {
      match this
      case TooSlow => "If the request attempt took more than 5 seconds to complete, it was aborted."
      case HeaderNotLocated => "The header could not be located in the response."
      case HeaderIncorrect => "The header has an incorrect value."
      case OptionsFoundByPreflight => "Method [OPTIONS] was found via a secondary OPTIONS pre-flight request."
      case PayIdVersionNotSpecified => "The [PayID-Version] header was not specified."
      case HeaderNotSet => "The header was not set in the response."
      case NoStoreExpected => "The header value is not correct. Expected value \"no-store\"."
      case HeaderNotSent => "The header was not sent in the response."
      case JsonTypeNotFound => "The value of [application/json] or other variants could not be found."
      case AddressFound(balance) => "The address was validated with the network. Current balance: " + balance
      case AddressNotFound => "The network could not find the given address."
      case ValidJson => "The response body is valid JSON."
      case InvalidJson => "The response body is NOT valid JSON."
    }
  }

  /** One entry of responseProperties: the label (as the check that set
    * it), the observed value, the code and the message. */
  datatype Verdict = Verdict(check: Check, value: string, code: Code, msg: Msg)

  /** Points per code: pass 2, warn 1, fail 0. */
  function CodePoints(c: Code): nat {
    match c
    case Pass => 2
    case Warn => 1
    case Fail => 0
  }

  const PassPoints := 2

  /** The points the foreach loop adds up over the verdicts. */
  function Points(vs: seq<Verdict>): nat {
    if vs == [] then 0 else Points(vs[..|vs| - 1]) + CodePoints(vs[|vs| - 1].code)
  }

  predicate AllPass(vs: seq<Verdict>) {
    forall i :: 0 <= i < |vs| ==> vs[i].code == Pass
  }

  /** No verdict earns more than a pass, and the maximum is reached exactly
    * when every verdict passes. */
  lemma {:induction false} PointsBound(vs: seq<Verdict>)
    ensures Points(vs) <= PassPoints * |vs|
    ensures Points(vs) == PassPoints * |vs| <==> AllPass(vs)
  {
    if vs != [] {
      var init := vs[..|vs| - 1];
      PointsBound(init);
      assert forall i :: 0 <= i < |init| ==> init[i] == vs[i];
    }
  }

  /** Points of a concatenation. */
  lemma {:induction false} PointsAppend(a: seq<Verdict>, b: seq<Verdict>)
    ensures Points(a + b) == Points(a) + Points(b)
  {
    if b != [] {
      assert (a + b)[..|a + b| - 1] == a + b[..|b| - 1];
      PointsAppend(a, b[..|b| - 1]);
    } else {
      assert a + b == a;
    }
  }

  /** round(100 * points / (2 * n), 2), in hundredths, rounding half up:
    * the exact score in hundredths is 10000 * points / (2 * n). */
  function ScoreHundredths(vs: seq<Verdict>): nat
    requires |vs| > 0
  {
    (10000 * Points(vs) + |vs|) / (PassPoints * |vs|)
  }

  /** Multiplying by a positive factor keeps the order. */
  lemma MulMono(d: int, x: int, y: int)
    requires d > 0
    ensures x <= y ==> d * x <= d * y
  {
    assert d * y - d * x == d * (y - x);
  }

  /** Euclidean division pins the quotient down. */
  lemma DivIsQuotient(num: int, d: int, q: int)
    requires d > 0 && d * q <= num < d * (q + 1)
    ensures num / d == q
  {
    var r := num / d;
    MulMono(d, r + 1, q);
    MulMono(d, q + 1, r);
  }

  /** The quotient is at most `q` when the numerator is below d * (q + 1). */
  lemma DivAtMost(num: int, d: int, q: int)
    requires d > 0 && num < d * (q + 1)
    ensures num / d <= q
  {
    var r := num / d;
    MulMono(d, q + 1, r);
  }

  /** round-half-up of 5000 * p / n to an integer, for p <= 2n. */
  lemma RoundingArith(p: nat, n: nat)
    requires n > 0 && p <= 2 * n
    ensures var h := (10000 * p + n) / (2 * n);
      && 2 * n * h <= 10000 * p + n < 2 * n * (h + 1)
      && 0 <= h <= 10000
      && (p == 2 * n ==> h == 10000)
      && (n < 10000 && p < 2 * n ==> h < 10000)
  {
    var d := 2 * n;
    var num := 10000 * p + n;
    var h := num / d;
    assert num == d * h + num % d && 0 <= num % d < d;
    assert num <= 20001 * n < d * 10001;
    DivAtMost(num, d, 10000);
    if p == 2 * n {
      assert num == 20001 * n;
      DivIsQuotient(num, d, 10000);
    }
    if n < 10000 && p < 2 * n {
      assert num <= 10000 * (2 * n - 1) + n;
      assert num < d * 10000;
      DivAtMost(num, d, 9999);
    }
  }

  /** The score is the hundredth nearest to the exact percentage (ties go
    * up), lies between 0 and 100, is 100 when every verdict passes, and,
    * for fewer than ten thousand verdicts, only then. */
  lemma ScoreProperties(vs: seq<Verdict>)
    requires |vs| > 0
    ensures var h, n, p := ScoreHundredths(vs), |vs|, Points(vs);
      && 2 * n * h <= 10000 * p + n < 2 * n * (h + 1)
      && 0 <= h <= 10000
      && (AllPass(vs) ==> h == 10000)
      && (n < 10000 ==> (h == 10000 <==> AllPass(vs)))
  {
    PointsBound(vs);
    RoundingArith(Points(vs), |vs|);
  }

  /** With ten thousand verdicts a single warning still rounds to 100. */
  lemma ManyVerdictsRoundUp(vs: seq<Verdict>)
    requires |vs| == 10000
    requires Points(vs) == PassPoints * |vs| - 1
    ensures !AllPass(vs) && ScoreHundredths(vs) == 10000
  {
    PointsBound(vs);
  }

  /** Three passes and a warning score 87.5. */
  lemma ThreePassesOneWarn(a: Verdict, b: Verdict, c: Verdict, d: Verdict)
    requires a.code == Pass && b.code == Pass && c.code == Pass && d.code == Warn
    ensures ScoreHundredths([a, b, c, d]) == 8750
  {
    var vs := [a, b, c, d];
    assert vs[..3] == [a, b, c] && [a, b, c][..2] == [a, b] && [a, b][..1] == [a] && [a][..0] == [];
    assert Points([a]) == 2;
    assert Points([a, b]) == 4;
    assert Points([a, b, c]) == 6;
    assert Points(vs) == 7;
    DivIsQuotient(70004, 8, 8750);
  }
}
