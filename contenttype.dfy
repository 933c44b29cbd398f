/**
 * The Content-Type regular expression '/application\/[\w\-]*[\+]*json/i':
 * somewhere in the header line, case-insensitively, "application/", then
 * any run of word characters and hyphens, then any run of '+', then "json".
 */
module ContentType {
  import opened Text

  predicate IsWordOrHyphen(c: char) { IsWordChar(c) || c == '-' }
  predicate IsPlus(c: char) { c == '+' }

  const TypePrefix := "application/"

  /** What may follow "application/": a "json" inside the run of word
    * characters and hyphens, or right after a non-empty run of '+' that
    * follows that run.  (The pluses cannot start inside the run, and "json"
    * consists of word characters, so these are the only two ways.) */
  predicate TailMatches(t: string) {
    var run := TakeWhile(t, IsWordOrHyphen);
    var rest := DropWhile(t, IsWordOrHyphen);
    HasInfix(run, "json") || (TakeWhile(rest, IsPlus) != [] && OccursAt(DropWhile(rest, IsPlus), "json", 0))
  }

  /** Tries every starting position in turn, as preg_match does. */
  predicate ScanFrom(t: string) {
    if |t| < |TypePrefix| then false
    else (t[..|TypePrefix|] == TypePrefix && TailMatches(t[|TypePrefix|..])) || ScanFrom(t[1..])
  }

  /** count($headerPieces) after matching the header line. */
  predicate ContentTypeMatches(line: string) {
    ScanFrom(Lower(line))
  }

  // ---------------------------------------------------------------------------
  // The pattern read literally, as a reference
  // ---------------------------------------------------------------------------

  /** `t[..m]` is the [\w\-]* part, `t[m..k]` the [\+]* part, and "json"
    * starts at k. */
  ghost predicate TailAt(t: string, m: int, k: int) {
    && 0 <= m <= k && k + 4 <= |t|
    && (forall j :: 0 <= j < m ==> IsWordOrHyphen(t[j]))
    && (forall j :: m <= j < k ==> t[j] == '+')
    && t[k..k + 4] == "json"
  }

  /** A match starting at position i of the lower-cased line. */
  ghost predicate PatternAt(t: string, i: int, m: int, k: int) {
    0 <= i && i + |TypePrefix| <= |t| && t[i..i + |TypePrefix|] == TypePrefix && TailAt(t[i + |TypePrefix|..], m, k)
  }

  ghost predicate RegexMatches(line: string) {
    exists i, m, k :: PatternAt(Lower(line), i, m, k)
  }

  lemma JsonChars(t: string, k: int)
    requires 0 <= k && k + 4 <= |t| && t[k..k + 4] == "json"
    ensures forall j :: k <= j < k + 4 ==> IsWordOrHyphen(t[j]) && t[j] != '+'
  {
    assert t[k] == 'j' && t[k + 1] == 's' && t[k + 2] == 'o' && t[k + 3] == 'n' by {
      assert t[k..k + 4][0] == t[k] && t[k..k + 4][1] == t[k + 1];
      assert t[k..k + 4][2] == t[k + 2] && t[k..k + 4][3] == t[k + 3];
    }
  }

  lemma TailFromJsonInRun(t: string)
    requires HasInfix(TakeWhile(t, IsWordOrHyphen), "json")
    ensures exists m, k :: TailAt(t, m, k)
  {
    var run := TakeWhile(t, IsWordOrHyphen);
    TakeDropWhile(t, IsWordOrHyphen);
    HasInfixIff(run, "json");
    var j :| OccursAt(run, "json", j);
    assert t[..|run|] == run;
    assert t[j..j + 4] == run[j..j + 4];
    assert TailAt(t, j, j);
  }

  lemma TailFromPluses(t: string)
    requires var rest := DropWhile(t, IsWordOrHyphen);
      TakeWhile(rest, IsPlus) != [] && OccursAt(DropWhile(rest, IsPlus), "json", 0)
    ensures exists m, k :: TailAt(t, m, k)
  {
    var run := TakeWhile(t, IsWordOrHyphen);
    var rest := DropWhile(t, IsWordOrHyphen);
    var pluses := TakeWhile(rest, IsPlus);
    var after := DropWhile(rest, IsPlus);
    TakeDropWhile(t, IsWordOrHyphen);
    TakeDropWhile(rest, IsPlus);
    var m := |run|;
    var k := |run| + |pluses|;
    assert t == run + (pluses + after);
    assert forall j :: 0 <= j < m ==> t[j] == run[j];
    assert forall j :: m <= j < k ==> t[j] == pluses[j - m];
    assert t[k..k + 4] == after[..4];
    assert TailAt(t, m, k);
  }

  lemma TailWithoutPluses(t: string, m: int)
    requires TailAt(t, m, m)
    ensures HasInfix(TakeWhile(t, IsWordOrHyphen), "json")
  {
    var run := TakeWhile(t, IsWordOrHyphen);
    TakeDropWhile(t, IsWordOrHyphen);
    JsonChars(t, m);
    TakeWhileLength(t, IsWordOrHyphen, m + 4);
    assert t[..|run|] == run;
    assert run[m..m + 4] == t[m..m + 4];
    assert OccursAt(run, "json", m);
    HasInfixIff(run, "json");
  }

  lemma TailWithPluses(t: string, m: int, k: int)
    requires TailAt(t, m, k) && m < k
    ensures var rest := DropWhile(t, IsWordOrHyphen);
      TakeWhile(rest, IsPlus) != [] && OccursAt(DropWhile(rest, IsPlus), "json", 0)
  {
    var run := TakeWhile(t, IsWordOrHyphen);
    var rest := DropWhile(t, IsWordOrHyphen);
    TakeDropWhile(t, IsWordOrHyphen);
    TakeWhileLength(t, IsWordOrHyphen, m);
    assert |run| == m;
    assert rest == t[m..];
    JsonChars(t, k);
    assert forall j :: 0 <= j < k - m ==> rest[j] == '+';
    assert rest[k - m] == t[k];
    TakeWhileLength(rest, IsPlus, k - m);
    var pluses := TakeWhile(rest, IsPlus);
    TakeDropWhile(rest, IsPlus);
    assert |pluses| == k - m;
    assert DropWhile(rest, IsPlus) == rest[k - m..];
    assert rest[k - m..][..4] == t[k..k + 4];
  }

  /** TailMatches is the tail of the pattern read literally. */
  lemma TailMatchesIff(t: string)
    ensures TailMatches(t) <==> exists m, k :: TailAt(t, m, k)
  {
    if HasInfix(TakeWhile(t, IsWordOrHyphen), "json") {
      TailFromJsonInRun(t);
    } else if TailMatches(t) {
      TailFromPluses(t);
    }
    if exists m, k :: TailAt(t, m, k) {
      var m, k :| TailAt(t, m, k);
      if m == k {
        TailWithoutPluses(t, m);
      } else {
        TailWithPluses(t, m, k);
      }
    }
  }

  /** A match at position 0 is the prefix followed by a matching tail. */
  lemma PatternAtStart(t: string, m: int, k: int)
    requires |t| >= |TypePrefix|
    ensures PatternAt(t, 0, m, k) <==> t[..|TypePrefix|] == TypePrefix && TailAt(t[|TypePrefix|..], m, k)
  {
    assert t[0..|TypePrefix|] == t[..|TypePrefix|];
  }

  /** Dropping the first character moves every match one place left. */
  lemma PatternShift(t: string, i: int, m: int, k: int)
    requires |t| >= 1 && 0 <= i
    ensures PatternAt(t[1..], i, m, k) <==> PatternAt(t, i + 1, m, k)
  {
    var n := |TypePrefix|;
    if i + 1 + n <= |t| {
      assert t[1..][i..i + n] == t[i + 1..i + 1 + n];
      assert t[1..][i + n..] == t[i + 1 + n..];
    }
  }

  /** Every match the scan finds is a match of the pattern. */
  lemma {:induction false} ScanFromSound(t: string)
    requires ScanFrom(t)
    ensures exists i, m, k :: PatternAt(t, i, m, k)
    decreases |t|
  {
    var n := |TypePrefix|;
    if t[..n] == TypePrefix && TailMatches(t[n..]) {
      TailMatchesIff(t[n..]);
      var m, k :| TailAt(t[n..], m, k);
      PatternAtStart(t, m, k);
    } else {
      ScanFromSound(t[1..]);
      var i, m, k :| PatternAt(t[1..], i, m, k);
      PatternShift(t, i, m, k);
    }
  }

  /** The scan finds every match of the pattern. */
  lemma {:induction false} ScanFromComplete(t: string, i: int, m: int, k: int)
    requires PatternAt(t, i, m, k)
    ensures ScanFrom(t)
    decreases |t|
  {
    var n := |TypePrefix|;
    if i == 0 {
      PatternAtStart(t, m, k);
      TailMatchesIff(t[n..]);
    } else {
      PatternShift(t, i - 1, m, k);
      ScanFromComplete(t[1..], i - 1, m, k);
    }
  }

  /** Scanning finds a match exactly when one starts somewhere. */
  lemma ScanFromIff(t: string)
    ensures ScanFrom(t) <==> exists i, m, k :: PatternAt(t, i, m, k)
  {
    if ScanFrom(t) {
      ScanFromSound(t);
    }
    if exists i, m, k :: PatternAt(t, i, m, k) {
      var i, m, k :| PatternAt(t, i, m, k);
      ScanFromComplete(t, i, m, k);
    }
  }

  /** The Content-Type check accepts exactly the header lines matched by
    * the regular expression. */
  lemma ContentTypeRegex(line: string)
    ensures ContentTypeMatches(line) <==> RegexMatches(line)
  {
    ScanFromIff(Lower(line));
  }

  /** Nothing shorter than "application/json" can match. */
  lemma ShortLinesFail(line: string)
    requires |line| < |TypePrefix| + 4
    ensures !RegexMatches(line)
  {
    ContentTypeRegex(line);
  }
}
