/**
 * The PHP string builtins the validator relies on: strtolower, trim,
 * explode / implode on a single-character delimiter, strpos-style substring
 * search, the decimal rendering of an integer, and the "\n" to "<br>"
 * replacement applied to pretty-printed JSON.
 */
module Text {

  // ---------------------------------------------------------------------------
  // strtolower (ASCII only, which is what the validator's inputs exercise)
  // ---------------------------------------------------------------------------

  function LowerChar(c: char): char {
    if 'A' <= c <= 'Z' then (c as int + 32) as char else c
  }

  function Lower(s: string): string {
    seq(|s|, i requires 0 <= i < |s| => LowerChar(s[i]))
  }

  /** Lower-casing commutes with taking a slice. */
  lemma LowerSlice(s: string, i: nat, j: nat)
    requires i <= j <= |s|
    ensures Lower(s)[i..j] == Lower(s[i..j])
  {
  }

  /** strtolower leaves a string without upper-case letters unchanged. */
  lemma LowerUnchanged(s: string)
    requires forall i :: 0 <= i < |s| ==> !('A' <= s[i] <= 'Z')
    ensures Lower(s) == s
  {
  }

  /** map('strtolower', ...) */
  function LowerAll(ps: seq<string>): (r: seq<string>)
    ensures |r| == |ps|
    ensures forall k :: 0 <= k < |ps| ==> r[k] == Lower(ps[k])
  {
    seq(|ps|, k requires 0 <= k < |ps| => Lower(ps[k]))
  }

  // ---------------------------------------------------------------------------
  // trim
  // ---------------------------------------------------------------------------

  /** The characters PHP's trim() strips by default: " \t\n\r\0\x0B". */
  predicate IsTrimmable(c: char) {
    c == ' ' || c == '\t' || c == '\n' || c == '\r' || c == '\0' || c == '\U{000B}'
  }

  /** Drops the leading trimmable characters: what is left is a suffix of `s`
    * that does not start with one, and everything dropped was trimmable. */
  function TrimLeft(s: string): (r: string)
    ensures |r| <= |s| && r == s[|s| - |r|..]
    ensures forall i :: 0 <= i < |s| - |r| ==> IsTrimmable(s[i])
    ensures r == [] || !IsTrimmable(r[0])
  {
    if s != [] && IsTrimmable(s[0]) then TrimLeft(s[1..]) else s
  }

  /** Drops the trailing trimmable characters: what is left is a prefix of `s`
    * that does not end with one, and everything dropped was trimmable. */
  function TrimRight(s: string): (r: string)
    ensures |r| <= |s| && r == s[..|r|]
    ensures forall i :: |r| <= i < |s| ==> IsTrimmable(s[i])
    ensures r == [] || !IsTrimmable(r[|r| - 1])
  {
    if s != [] && IsTrimmable(s[|s| - 1]) then TrimRight(s[..|s| - 1]) else s
  }

  /** trim($s): neither end of the result is trimmable. */
  function Trim(s: string): (r: string)
    ensures |r| <= |s|
    ensures r == [] || (!IsTrimmable(r[0]) && !IsTrimmable(r[|r| - 1]))
  {
    var l := TrimLeft(s);
    var r := TrimRight(l);
    assert r != [] ==> r[0] == l[0];
    r
  }

  /** map('trim', ...) */
  function TrimAll(ps: seq<string>): (r: seq<string>)
    ensures |r| == |ps|
    ensures forall k :: 0 <= k < |ps| ==> r[k] == Trim(ps[k])
  {
    seq(|ps|, k requires 0 <= k < |ps| => Trim(ps[k]))
  }

  // ---------------------------------------------------------------------------
  // explode / implode
  // ---------------------------------------------------------------------------

  /** explode($sep, $s) for a one-character delimiter: the pieces between
    * consecutive delimiters, empty pieces included; never an empty list. */
  function Split(s: string, sep: char): (r: seq<string>)
    ensures |r| >= 1
  {
    if s == [] then [""]
    else
      var rest := Split(s[1..], sep);
      if s[0] == sep then [""] + rest
      else [[s[0]] + rest[0]] + rest[1..]
  }

  /** implode($glue, $pieces). */
  function Implode(glue: string, pieces: seq<string>): string
  {
    if pieces == [] then ""
    else if |pieces| == 1 then pieces[0]
    else pieces[0] + glue + Implode(glue, pieces[1..])
  }

  /** No piece of explode contains the delimiter. */
  lemma {:induction false} SplitPiecesAvoid(s: string, sep: char)
    ensures forall k :: 0 <= k < |Split(s, sep)| ==> sep !in Split(s, sep)[k]
  {
    if s != [] {
      SplitPiecesAvoid(s[1..], sep);
    }
  }

  /** implode undoes explode. */
  lemma {:induction false} ImplodeSplit(s: string, sep: char)
    ensures Implode([sep], Split(s, sep)) == s
  {
    if s != [] {
      var rest := Split(s[1..], sep);
      ImplodeSplit(s[1..], sep);
      if s[0] == sep {
        assert ([""] + rest)[1..] == rest;
      } else if |rest| > 1 {
        var r := [[s[0]] + rest[0]] + rest[1..];
        assert r[1..] == rest[1..];
        assert Implode([sep], rest) == rest[0] + [sep] + Implode([sep], rest[1..]);
      }
    }
  }

  /** Splitting a delimiter-free prefix glued to the rest of a string. */
  lemma {:induction false} SplitPrefix(a: string, b: string, sep: char)
    requires sep !in a
    ensures Split(a + b, sep) == [a + Split(b, sep)[0]] + Split(b, sep)[1..]
  {
    if a == [] {
      var sb := Split(b, sep);
      assert a + b == b && a + sb[0] == sb[0];
      assert [sb[0]] + sb[1..] == sb;
    } else {
      var sb := Split(b, sep);
      assert (a + b)[0] == a[0] && (a + b)[1..] == a[1..] + b;
      SplitPrefix(a[1..], b, sep);
      var rest := Split(a[1..] + b, sep);
      assert rest == [a[1..] + sb[0]] + sb[1..];
      assert rest[0] == a[1..] + sb[0] && rest[1..] == sb[1..];
      assert [a[0]] + (a[1..] + sb[0]) == a + sb[0];
    }
  }

  /** explode undoes implode when no piece contains the delimiter. */
  lemma {:induction false} SplitImplode(pieces: seq<string>, sep: char)
    requires |pieces| >= 1
    requires forall k :: 0 <= k < |pieces| ==> sep !in pieces[k]
    ensures Split(Implode([sep], pieces), sep) == pieces
  {
    if |pieces| == 1 {
      SplitPrefix(pieces[0], "", sep);
      assert pieces[0] + "" == pieces[0];
    } else {
      var tail := Implode([sep], pieces[1..]);
      SplitImplode(pieces[1..], sep);
      assert Implode([sep], pieces) == pieces[0] + ([sep] + tail);
      SplitPrefix(pieces[0], [sep] + tail, sep);
      assert ([sep] + tail)[0] == sep && ([sep] + tail)[1..] == tail;
      var st := Split([sep] + tail, sep);
      assert st == [""] + pieces[1..];
      assert st[0] == "" && st[1..] == pieces[1..];
      assert pieces[0] + "" == pieces[0];
      assert [pieces[0]] + pieces[1..] == pieces;
    }
  }

  /** A list of delimiter-free pieces is the explode of a string exactly
    * when it implodes to that string. */
  lemma SplitCharacterization(s: string, sep: char, pieces: seq<string>)
    ensures pieces == Split(s, sep) <==>
      (|pieces| >= 1 && (forall k :: 0 <= k < |pieces| ==> sep !in pieces[k])
       && Implode([sep], pieces) == s)
  {
    SplitPiecesAvoid(s, sep);
    ImplodeSplit(s, sep);
    if |pieces| >= 1 && (forall k :: 0 <= k < |pieces| ==> sep !in pieces[k]) && Implode([sep], pieces) == s {
      SplitImplode(pieces, sep);
    }
  }

  /** explode yields one more piece than there are delimiters. */
  lemma {:induction false} SplitCount(s: string, sep: char)
    ensures |Split(s, sep)| == multiset(s)[sep] + 1
  {
    if s != [] {
      SplitCount(s[1..], sep);
      assert s == [s[0]] + s[1..];
      assert multiset(s) == multiset([s[0]]) + multiset(s[1..]);
    }
  }

  /** A character that is neither in the glue nor in any piece is not in the
    * imploded string. */
  lemma {:induction false} ImplodeAvoids(glue: string, pieces: seq<string>, c: char)
    requires c !in glue
    requires forall k :: 0 <= k < |pieces| ==> c !in pieces[k]
    ensures c !in Implode(glue, pieces)
  {
    if |pieces| > 1 {
      ImplodeAvoids(glue, pieces[1..], c);
    }
  }

  // ---------------------------------------------------------------------------
  // Greedy runs, as a regular-expression repetition consumes them
  // ---------------------------------------------------------------------------

  /** PCRE's \w without the u modifier: [A-Za-z0-9_]. */
  predicate IsWordChar(c: char) {
    'a' <= c <= 'z' || 'A' <= c <= 'Z' || '0' <= c <= '9' || c == '_'
  }

  /** The longest prefix of `s` whose characters all satisfy `p`. */
  function TakeWhile(s: string, p: char -> bool): string {
    if s != [] && p(s[0]) then [s[0]] + TakeWhile(s[1..], p) else []
  }

  /** What is left of `s` after that prefix. */
  function DropWhile(s: string, p: char -> bool): string {
    if s != [] && p(s[0]) then DropWhile(s[1..], p) else s
  }

  /** The two halves put `s` back together; the first satisfies `p`
    * throughout and the second does not start with a character that does. */
  lemma {:induction false} TakeDropWhile(s: string, p: char -> bool)
    ensures TakeWhile(s, p) + DropWhile(s, p) == s
    ensures forall i :: 0 <= i < |TakeWhile(s, p)| ==> p(TakeWhile(s, p)[i])
    ensures DropWhile(s, p) == [] || !p(DropWhile(s, p)[0])
  {
    if s != [] && p(s[0]) {
      TakeDropWhile(s[1..], p);
      assert s == [s[0]] + s[1..];
      var t := TakeWhile(s[1..], p);
      assert TakeWhile(s, p) == [s[0]] + t;
      assert forall i :: 1 <= i < |TakeWhile(s, p)| ==> TakeWhile(s, p)[i] == t[i - 1];
    }
  }

  /** The run is at least as long as any prefix that qualifies, and stops
    * at the first character that does not. */
  lemma {:induction false} TakeWhileLength(s: string, p: char -> bool, n: nat)
    ensures (n <= |s| && forall j :: 0 <= j < n ==> p(s[j])) ==> n <= |TakeWhile(s, p)|
    ensures (n < |s| && !p(s[n])) ==> |TakeWhile(s, p)| <= n
  {
    if s != [] && p(s[0]) && n > 0 {
      TakeWhileLength(s[1..], p, n - 1);
      if n <= |s| && forall j :: 0 <= j < n ==> p(s[j]) {
        assert forall j :: 0 <= j < n - 1 ==> p(s[1..][j]) by {
          forall j | 0 <= j < n - 1 ensures p(s[1..][j]) { assert s[1..][j] == s[j + 1]; }
        }
      }
      if n < |s| && !p(s[n]) {
        assert s[1..][n - 1] == s[n];
      }
    }
  }

  /** Dropping a prefix keeps a property every character has; when every
    * character satisfies `p` nothing is left. */
  lemma {:induction false} DropWhileKeeps(s: string, p: char -> bool, q: char -> bool)
    requires forall i :: 0 <= i < |s| ==> q(s[i])
    ensures forall i :: 0 <= i < |DropWhile(s, p)| ==> q(DropWhile(s, p)[i])
    ensures (forall i :: 0 <= i < |s| ==> p(s[i])) ==> DropWhile(s, p) == []
  {
    if s != [] && p(s[0]) {
      DropWhileKeeps(s[1..], p, q);
    }
  }

  /** The run over `a + b` is exactly `a` when `a` qualifies and `b` does
    * not continue it. */
  lemma {:induction false} WhileOf(a: string, b: string, p: char -> bool)
    requires forall i :: 0 <= i < |a| ==> p(a[i])
    requires b == [] || !p(b[0])
    ensures TakeWhile(a + b, p) == a
    ensures DropWhile(a + b, p) == b
  {
    if a == [] {
      assert a + b == b;
    } else {
      assert (a + b)[0] == a[0];
      assert (a + b)[1..] == a[1..] + b;
      WhileOf(a[1..], b, p);
      assert [a[0]] + a[1..] == a;
    }
  }

  // ---------------------------------------------------------------------------
  // strpos($haystack, $needle) !== false
  // ---------------------------------------------------------------------------

  /** `sub` occurs in `s` starting at position `i`. */
  predicate OccursAt(s: string, sub: string, i: int) {
    0 <= i && i + |sub| <= |s| && s[i..i + |sub|] == sub
  }

  function HasInfix(s: string, sub: string): bool
    decreases |s|
  {
    if |s| < |sub| then false
    else s[..|sub|] == sub || HasInfix(s[1..], sub)
  }

  /** The scanning search finds `sub` exactly when it occurs somewhere. */
  lemma {:induction false} HasInfixIff(s: string, sub: string)
    ensures HasInfix(s, sub) <==> exists i :: OccursAt(s, sub, i)
    decreases |s|
  {
    if |s| >= |sub| && s[..|sub|] == sub {
      assert OccursAt(s, sub, 0);
    } else if |s| >= |sub| {
      assert |s| >= 1;
      HasInfixIff(s[1..], sub);
      if HasInfix(s, sub) {
        {
          var i :| OccursAt(s[1..], sub, i);
          assert s[1..][i..i + |sub|] == s[i + 1..i + 1 + |sub|];
          assert OccursAt(s, sub, i + 1);
        }
      } else {
        forall i | 0 <= i ensures !OccursAt(s, sub, i) {
          if i == 0 {
            assert !OccursAt(s, sub, 0);
          } else if i + |sub| <= |s| {
            assert s[1..][i - 1..i - 1 + |sub|] == s[i..i + |sub|];
            assert !OccursAt(s[1..], sub, i - 1);
          }
        }
      }
    } else {
      forall i | 0 <= i ensures !OccursAt(s, sub, i) {
      }
    }
  }

  // ---------------------------------------------------------------------------
  // Integer to string, as PHP's string conversion of a non-negative int
  // ---------------------------------------------------------------------------

  predicate IsDigit(c: char) { '0' <= c <= '9' }

  function DigitChar(d: nat): char
    requires d < 10
  {
    ('0' as int + d) as char
  }

  /** The decimal digits of `n`, most significant first, no leading zero. */
  function NatToString(n: nat): (r: string)
    ensures |r| >= 1
    ensures forall i :: 0 <= i < |r| ==> IsDigit(r[i])
    ensures |r| > 1 ==> r[0] != '0'
  {
    if n < 10 then [DigitChar(n)] else NatToString(n / 10) + [DigitChar(n % 10)]
  }

  /** The number a string of decimal digits denotes. */
  function DecimalValue(s: string): nat
    requires forall i :: 0 <= i < |s| ==> IsDigit(s[i])
  {
    if s == [] then 0
    else
      assert IsDigit(s[|s| - 1]);
      10 * DecimalValue(s[..|s| - 1]) + (s[|s| - 1] as int - '0' as int)
  }

  /** Reading the decimal rendering back gives the number. */
  lemma {:induction false} NatToStringValue(n: nat)
    ensures DecimalValue(NatToString(n)) == n
  {
    if n >= 10 {
      NatToStringValue(n / 10);
      var s := NatToString(n);
      assert s[..|s| - 1] == NatToString(n / 10);
    }
  }

  // ---------------------------------------------------------------------------
  // str_replace("\n", "<br>", $s)
  // ---------------------------------------------------------------------------

  function ReplaceNewlines(s: string): (r: string)
    ensures '\n' !in r
    ensures |r| == |s| + 3 * multiset(s)['\n']
  {
    if s == [] then ""
    else
      assert s == [s[0]] + s[1..];
      assert multiset(s) == multiset([s[0]]) + multiset(s[1..]);
      (if s[0] == '\n' then "<br>" else [s[0]]) + ReplaceNewlines(s[1..])
  }

  // ---------------------------------------------------------------------------
  // Accumulators: what is appended in two steps is appended as one
  // ---------------------------------------------------------------------------

  lemma AppendTwice<T>(list: seq<T>, first: seq<T>, second: seq<T>)
    ensures list + first + second == list + (first + second)
  {
  }

  lemma AppendNothing<T>(list: seq<T>)
    ensures list + [] == list
  {
  }
}
