/**
 * The PayID grammar (PAYID_REGEX) and the request URL built from a PayID.
 *
 * A PayID is `local$host`.  The local part is one or more dot-separated
 * tokens over [a-z0-9!#@%&*+=?^_`{|}~-]; the host is either DNS labels
 * followed by a final label that has no digit strictly inside it, or a
 * dotted quad of one-to-three digit groups.  `IsValidPayId` decides this by
 * exploding on '$' and '.'; `MatchesPayIdPattern` restates the regular
 * expression's own shape (concatenations of tokens and separators), and
 * `PayIdGrammar` proves the two agree.
 */
module PayId {
  import opened Text

  // ---------------------------------------------------------------------------
  // Character classes and pieces of the grammar
  // ---------------------------------------------------------------------------

  /** [a-z0-9] */
  predicate IsAlnum(c: char) {
    'a' <= c <= 'z' || '0' <= c <= '9'
  }

  /** [a-z0-9!#@%&*+=?^_`{|}~-], the characters of a local-part token. */
  predicate IsLocalChar(c: char) {
    IsAlnum(c) || c in "!#@%&*+=?^_`{|}~-"
  }

  /** The characters any host label may use: [a-z0-9-]. */
  predicate IsHostChar(c: char) {
    IsAlnum(c) || c == '-'
  }

  /** [a-z0-9!#@%&*+=?^_`{|}~-]+ */
  predicate IsToken(t: string) {
    |t| > 0 && forall i :: 0 <= i < |t| ==> IsLocalChar(t[i])
  }

  /** [a-z0-9](?:[a-z0-9-]*[a-z0-9])? */
  predicate IsLabel(t: string) {
    && |t| > 0 && IsAlnum(t[0]) && IsAlnum(t[|t| - 1])
    && forall i :: 0 < i < |t| - 1 ==> IsHostChar(t[i])
  }

  /** [a-z0-9](?:[a-z-]*[a-z0-9])?  -- no digit strictly inside. */
  predicate IsFinalLabel(t: string) {
    && |t| > 0 && IsAlnum(t[0]) && IsAlnum(t[|t| - 1])
    && forall i :: 0 < i < |t| - 1 ==> 'a' <= t[i] <= 'z' || t[i] == '-'
  }

  /** [0-9]{1,3} */
  predicate IsOctetGroup(t: string) {
    1 <= |t| <= 3 && forall i :: 0 <= i < |t| ==> '0' <= t[i] <= '9'
  }

  // ---------------------------------------------------------------------------
  // The decision procedure
  // ---------------------------------------------------------------------------

  predicate IsLocalPart(s: string) {
    var tokens := Split(s, '.');
    forall k :: 0 <= k < |tokens| ==> IsToken(tokens[k])
  }

  predicate IsDnsHost(h: string) {
    var labels := Split(h, '.');
    && |labels| >= 2
    && (forall k :: 0 <= k < |labels| - 1 ==> IsLabel(labels[k]))
    && IsFinalLabel(labels[|labels| - 1])
  }

  predicate IsDottedQuad(h: string) {
    var groups := Split(h, '.');
    |groups| == 4 && forall k :: 0 <= k < 4 ==> IsOctetGroup(groups[k])
  }

  predicate IsHost(h: string) {
    IsDnsHost(h) || IsDottedQuad(h)
  }

  /** The PayID is anchored at both ends: exactly `local$host`. */
  predicate IsValidPayId(s: string) {
    var parts := Split(s, '$');
    |parts| == 2 && IsLocalPart(parts[0]) && IsHost(parts[1])
  }

  // ---------------------------------------------------------------------------
  // The regular expression's own shape
  // ---------------------------------------------------------------------------

  /** `s` is  token (\. token)*  spelled out by `tokens`. */
  ghost predicate LocalPartFrom(s: string, tokens: seq<string>) {
    && |tokens| >= 1
    && (forall k :: 0 <= k < |tokens| ==> IsToken(tokens[k]))
    && s == Implode(".", tokens)
  }

  /** `h` is  (label \.)+ finalLabel  spelled out by `labels` and `last`. */
  ghost predicate DnsHostFrom(h: string, labels: seq<string>, last: string) {
    && |labels| >= 1
    && (forall k :: 0 <= k < |labels| ==> IsLabel(labels[k]))
    && IsFinalLabel(last)
    && h == Implode(".", labels + [last])
  }

  /** `h` is  (group \.){3} group  spelled out by `groups`. */
  ghost predicate DottedQuadFrom(h: string, groups: seq<string>) {
    && |groups| == 4
    && (forall k :: 0 <= k < 4 ==> IsOctetGroup(groups[k]))
    && h == Implode(".", groups)
  }

  ghost predicate HostMatches(h: string) {
    || (exists labels, last :: DnsHostFrom(h, labels, last))
    || (exists groups :: DottedQuadFrom(h, groups))
  }

  /** `s` is  local \$ host  for this choice of the two parts. */
  ghost predicate PayIdFrom(s: string, local: string, host: string) {
    && s == local + "$" + host
    && (exists tokens :: LocalPartFrom(local, tokens))
    && HostMatches(host)
  }

  /** The language of PAYID_REGEX, read as a regular expression matched
    * against the whole string. */
  ghost predicate MatchesPayIdPattern(s: string) {
    exists local, host :: PayIdFrom(s, local, host)
  }

  // ---------------------------------------------------------------------------
  // The decision procedure decides the grammar
  // ---------------------------------------------------------------------------

  /** No character outside [a-z0-9-] occurs in a label, final label or group. */
  lemma HostPieceAvoids(t: string, c: char)
    requires IsLabel(t) || IsFinalLabel(t) || IsOctetGroup(t)
    requires !IsHostChar(c)
    ensures c !in t
  {
  }

  /** No character outside the local-part class occurs in a token. */
  lemma TokenAvoids(t: string, c: char)
    requires IsToken(t)
    requires !IsLocalChar(c)
    ensures c !in t
  {
  }

  lemma LocalPartIff(s: string)
    ensures IsLocalPart(s) <==> exists tokens :: LocalPartFrom(s, tokens)
  {
    if IsLocalPart(s) {
      ImplodeSplit(s, '.');
      assert LocalPartFrom(s, Split(s, '.'));
    }
    if tokens :| LocalPartFrom(s, tokens) {
      forall k | 0 <= k < |tokens| ensures '.' !in tokens[k] {
        TokenAvoids(tokens[k], '.');
      }
      SplitImplode(tokens, '.');
    }
  }

  lemma DnsHostIff(h: string)
    ensures IsDnsHost(h) <==> exists labels, last :: DnsHostFrom(h, labels, last)
  {
    var ls := Split(h, '.');
    if IsDnsHost(h) {
      ImplodeSplit(h, '.');
      var labels, last := ls[..|ls| - 1], ls[|ls| - 1];
      assert labels + [last] == ls;
      assert DnsHostFrom(h, labels, last);
    }
    if labels, last :| DnsHostFrom(h, labels, last) {
      var pieces := labels + [last];
      forall k | 0 <= k < |pieces| ensures '.' !in pieces[k] {
        HostPieceAvoids(pieces[k], '.');
      }
      SplitImplode(pieces, '.');
      assert ls == pieces;
      assert ls[..|ls| - 1] == labels;
    }
  }

  lemma DottedQuadIff(h: string)
    ensures IsDottedQuad(h) <==> exists groups :: DottedQuadFrom(h, groups)
  {
    if IsDottedQuad(h) {
      ImplodeSplit(h, '.');
      assert DottedQuadFrom(h, Split(h, '.'));
    }
    if groups :| DottedQuadFrom(h, groups) {
      forall k | 0 <= k < |groups| ensures '.' !in groups[k] {
        HostPieceAvoids(groups[k], '.');
      }
      SplitImplode(groups, '.');
    }
  }

  lemma HostIff(h: string)
    ensures IsHost(h) <==> HostMatches(h)
  {
    DnsHostIff(h);
    DottedQuadIff(h);
  }

  /** Neither part of a matching PayID contains a character that is outside
    * both the local-part class and the host class. */
  lemma PartsAvoid(s: string, local: string, host: string, c: char)
    requires PayIdFrom(s, local, host)
    requires !IsLocalChar(c) && !IsHostChar(c) && c != '.'
    ensures c !in local && c !in host
  {
    var tokens :| LocalPartFrom(local, tokens);
    forall k | 0 <= k < |tokens| ensures c !in tokens[k] {
      TokenAvoids(tokens[k], c);
    }
    ImplodeAvoids(".", tokens, c);
    if labels, last :| DnsHostFrom(host, labels, last) {
      var pieces := labels + [last];
      forall k | 0 <= k < |pieces| ensures c !in pieces[k] {
        HostPieceAvoids(pieces[k], c);
      }
      ImplodeAvoids(".", pieces, c);
    } else {
      var groups :| DottedQuadFrom(host, groups);
      forall k | 0 <= k < |groups| ensures c !in groups[k] {
        HostPieceAvoids(groups[k], c);
      }
      ImplodeAvoids(".", groups, c);
    }
  }

  /** A matching PayID explodes on '$' into exactly its two parts; in
    * particular the parts are determined by the PayID. */
  lemma SplitAtDollar(s: string, local: string, host: string)
    requires PayIdFrom(s, local, host)
    ensures Split(s, '$') == [local, host]
  {
    PartsAvoid(s, local, host, '$');
    assert Implode("$", [local, host]) == local + "$" + host;
    SplitImplode([local, host], '$');
  }

  /** The decision procedure accepts exactly the language of PAYID_REGEX. */
  lemma PayIdGrammar(s: string)
    ensures IsValidPayId(s) <==> MatchesPayIdPattern(s)
  {
    var parts := Split(s, '$');
    if IsValidPayId(s) {
      ImplodeSplit(s, '$');
      assert Implode("$", parts) == parts[0] + "$" + parts[1];
      LocalPartIff(parts[0]);
      HostIff(parts[1]);
      assert PayIdFrom(s, parts[0], parts[1]);
    }
    if local, host :| PayIdFrom(s, local, host) {
      SplitAtDollar(s, local, host);
      LocalPartIff(local);
      HostIff(host);
    }
  }

  /** An accepted PayID holds exactly one '$' and no line break. */
  lemma ValidPayIdShape(s: string)
    requires IsValidPayId(s)
    ensures multiset(s)['$'] == 1
    ensures '\n' !in s
  {
    PayIdGrammar(s);
    var local, host :| PayIdFrom(s, local, host);
    PartsAvoid(s, local, host, '\n');
    SplitCount(s, '$');
  }

  // ---------------------------------------------------------------------------
  // getRequestUrl
  // ---------------------------------------------------------------------------

  /** 'https://' . $pieces[1] . '/' . $pieces[0]  with  $pieces = explode('$', $payId);
    * a missing second piece reads as the empty string. */
  function RequestUrl(payId: string): string {
    var pieces := Split(payId, '$');
    "https://" + (if |pieces| > 1 then pieces[1] else "") + "/" + pieces[0]
  }

  /** Whenever neither side of the one '$' contains another, the URL is
    * https://host/local. */
  lemma RequestUrlOfParts(local: string, host: string)
    requires '$' !in local && '$' !in host
    ensures RequestUrl(local + "$" + host) == "https://" + host + "/" + local
  {
    assert Implode("$", [local, host]) == local + "$" + host;
    SplitImplode([local, host], '$');
  }

  /** For an accepted PayID the URL is https://host/local, for the very host
    * and local part the grammar matched. */
  lemma RequestUrlOfPayId(s: string, local: string, host: string)
    requires PayIdFrom(s, local, host)
    ensures IsValidPayId(s)
    ensures RequestUrl(s) == "https://" + host + "/" + local
  {
    PayIdGrammar(s);
    SplitAtDollar(s, local, host);
  }

  // ---------------------------------------------------------------------------
  // PAYID_REGEX as PHP evaluates it
  // ---------------------------------------------------------------------------

  /** preg_match without the D modifier lets the closing `$` anchor match just
    * before a final "\n", so the pattern also accepts a valid PayID followed
    * by one line break. */
  predicate PayIdRegexAsWritten(s: string) {
    || IsValidPayId(s)
    || (|s| > 0 && s[|s| - 1] == '\n' && IsValidPayId(s[..|s| - 1]))
  }

  /** The pattern as PHP runs it accepts the language of PAYID_REGEX and,
    * besides, every word of that language followed by one line break. */
  lemma RegexAsWrittenLanguage(s: string)
    ensures PayIdRegexAsWritten(s) <==>
      || MatchesPayIdPattern(s)
      || (|s| > 0 && s[|s| - 1] == '\n' && MatchesPayIdPattern(s[..|s| - 1]))
  {
    PayIdGrammar(s);
    if |s| > 0 {
      PayIdGrammar(s[..|s| - 1]);
    }
  }

  /** The PayID of the example below, without its line break, is accepted. */
  lemma ExamplePayIdAccepted()
    ensures IsValidPayId("alice$example.com")
  {
    ExampleHostMatches();
    assert LocalPartFrom("alice", ["alice"]);
    assert PayIdFrom("alice$example.com", "alice", "example.com");
    PayIdGrammar("alice$example.com");
  }

  lemma ExampleHostMatches()
    ensures HostMatches("example.com")
  {
    assert ["example"] + ["com"] == ["example", "com"];
    assert DnsHostFrom("example.com", ["example"], "com");
  }

  /** The host part of the example below is not a host. */
  lemma ExampleHostRejected()
    ensures !IsHost("example.com\n")
  {
    assert Implode(".", ["example", "com\n"]) == "example.com\n";
    SplitImplode(["example", "com\n"], '.');
    assert !IsFinalLabel("com\n");
  }

  /** The example below, line break included, is not a PayID. */
  lemma ExampleNewlineRejected()
    ensures !IsValidPayId("alice$example.com\n")
  {
    assert Implode("$", ["alice", "example.com\n"]) == "alice$example.com\n";
    SplitImplode(["alice", "example.com\n"], '$');
    ExampleHostRejected();
  }

  /** "alice$example.com\n" passes the pattern as PHP runs it but is not a
    * PayID. */
  lemma TrailingNewlineAccepted()
    ensures PayIdRegexAsWritten("alice$example.com\n")
    ensures !IsValidPayId("alice$example.com\n")
  {
    var bad := "alice$example.com\n";
    ExamplePayIdAccepted();
    assert bad[..|bad| - 1] == "alice$example.com";
    ExampleNewlineRejected();
  }

  /** The request for that PayID would go to a host ending in a line break. */
  lemma TrailingNewlineUrl()
    ensures RequestUrl("alice" + "$" + "example.com\n") == "https://" + "example.com\n" + "/" + "alice"
  {
    RequestUrlOfParts("alice", "example.com\n");
  }
}
