/**
  The JavaScript string built-ins the scrapers rely on: `trim`, ASCII
  `toUpperCase`/`toLowerCase`, `includes`, `split('\n')` and the decimal
  `toString` of a number.
 */
module Text {
  import opened Seqs

  // ---------------------------------------------------------------------
  // Character classes
  // ---------------------------------------------------------------------

  /** `\d` in a JavaScript regular expression: the ASCII digits only. */
  predicate IsDigit(c: char) { '0' <= c <= '9' }

  predicate IsAsciiLower(c: char) { 'a' <= c <= 'z' }

  predicate IsAsciiUpper(c: char) { 'A' <= c <= 'Z' }

  /** `\w`, which decides where `\b` holds: ASCII letters, digits and `_`. */
  predicate IsWordChar(c: char) {
    IsAsciiLower(c) || IsAsciiUpper(c) || IsDigit(c) || c == '_'
  }

  /**
    The WhiteSpace and LineTerminator code points of ECMAScript: what
    `String.prototype.trim` strips and what `\s` matches.
   */
  predicate IsSpace(c: char) {
    c == '\t' || c == '\n' || c == '\U{000B}' || c == '\U{000C}' || c == '\r'
    || c == ' ' || c == '\U{00A0}' || c == '\U{1680}'
    || ('\U{2000}' <= c <= '\U{200A}')
    || c == '\U{2028}' || c == '\U{2029}' || c == '\U{202F}' || c == '\U{205F}'
    || c == '\U{3000}' || c == '\U{FEFF}'
  }

  predicate AllDigits(s: string) {
    forall i :: 0 <= i < |s| ==> IsDigit(s[i])
  }

  /** Exactly two decimal digits, the shape of every lottery number. */
  predicate TwoDigits(s: string) {
    |s| == 2 && IsDigit(s[0]) && IsDigit(s[1])
  }

  // ---------------------------------------------------------------------
  // Case mapping (ASCII only; every other character is left as it is)
  // ---------------------------------------------------------------------

  function UpperChar(c: char): char {
    if IsAsciiLower(c) then (c as int - 32) as char else c
  }

  function LowerChar(c: char): char {
    if IsAsciiUpper(c) then (c as int + 32) as char else c
  }

  /** `toUpperCase()` restricted to ASCII letters. */
  function Upper(s: string): (r: string)
    ensures |r| == |s|
    ensures forall i :: 0 <= i < |s| ==> r[i] == UpperChar(s[i])
  {
    seq(|s|, i requires 0 <= i < |s| => UpperChar(s[i]))
  }

  /** `toLowerCase()` restricted to ASCII letters. */
  function Lower(s: string): (r: string)
    ensures |r| == |s|
    ensures forall i :: 0 <= i < |s| ==> r[i] == LowerChar(s[i])
  {
    seq(|s|, i requires 0 <= i < |s| => LowerChar(s[i]))
  }

  /** Upper-casing leaves no ASCII lower-case letter and changes nothing else. */
  lemma UpperCharFacts(c: char)
    ensures !IsAsciiLower(UpperChar(c))
    ensures !IsAsciiLower(c) ==> UpperChar(c) == c
    ensures IsSpace(UpperChar(c)) <==> IsSpace(c)
  {
  }

  /** Lower-casing is idempotent. */
  lemma {:induction false} LowerIdempotent(s: string)
    ensures Lower(Lower(s)) == Lower(s)
  {
    forall i | 0 <= i < |s| ensures Lower(Lower(s))[i] == Lower(s)[i] {
      var c := s[i];
      if IsAsciiUpper(c) {
        assert !IsAsciiUpper(LowerChar(c));
      }
    }
  }

  // ---------------------------------------------------------------------
  // trim()
  // ---------------------------------------------------------------------

  /** The number of leading white-space characters of `s`. */
  function LeadingSpaces(s: string): (n: nat)
    ensures n <= |s|
    ensures forall i :: 0 <= i < n ==> IsSpace(s[i])
    ensures n == |s| || !IsSpace(s[n])
  {
    if |s| > 0 && IsSpace(s[0]) then 1 + LeadingSpaces(s[1..]) else 0
  }

  /** The length of `s` once its trailing white space is removed. */
  function TrailingCut(s: string): (n: nat)
    ensures n <= |s|
    ensures forall i :: n <= i < |s| ==> IsSpace(s[i])
    ensures n == 0 || !IsSpace(s[n - 1])
  {
    if |s| > 0 && IsSpace(s[|s| - 1]) then TrailingCut(s[..|s| - 1]) else |s|
  }

  /**
    `trim()`: removes white space from both ends. The result is the slice of
    `s` between its leading and trailing white space.
   */
  function Trim(s: string): (r: string)
    ensures var a := LeadingSpaces(s); a + |r| <= |s| && r == s[a..a + |r|]
    ensures r == [] || (!IsSpace(r[0]) && !IsSpace(r[|r| - 1]))
    ensures r == [] <==> forall i :: 0 <= i < |s| ==> IsSpace(s[i])
    ensures forall i :: LeadingSpaces(s) + |r| <= i < |s| ==> IsSpace(s[i])
  {
    var a := LeadingSpaces(s);
    var rest := s[a..];
    var b := TrailingCut(rest);
    assert b > 0 ==> !IsSpace(rest[0]);
    assert forall i :: a + b <= i < |s| ==> s[i] == rest[i - a];
    rest[..b]
  }

  // ---------------------------------------------------------------------
  // includes()
  // ---------------------------------------------------------------------

  /** `s.includes(t)`: `t` occurs in `s` at some position. */
  predicate Contains(s: string, t: string)
    decreases |s|
  {
    t <= s || (|s| > 0 && Contains(s[1..], t))
  }

  /** `t` occurs in `s` exactly when `s` has a slice equal to `t`. */
  lemma {:induction false} ContainsAt(s: string, t: string, i: nat)
    requires i + |t| <= |s| && s[i..i + |t|] == t
    ensures Contains(s, t)
  {
    if i > 0 {
      assert s[1..][i - 1..i - 1 + |t|] == t;
      ContainsAt(s[1..], t, i - 1);
    }
  }

  /** A witness position for `Contains`. */
  lemma {:induction false} ContainsWitness(s: string, t: string) returns (i: nat)
    requires Contains(s, t)
    ensures i + |t| <= |s| && s[i..i + |t|] == t
  {
    if t <= s {
      i := 0;
    } else {
      var j := ContainsWitness(s[1..], t);
      i := j + 1;
      assert s[i..i + |t|] == s[1..][j..j + |t|];
    }
  }

  /** Containment is transitive. */
  lemma ContainsTrans(s: string, t: string, w: string)
    requires Contains(s, t) && Contains(t, w)
    ensures Contains(s, w)
  {
    var i := ContainsWitness(s, t);
    var j := ContainsWitness(t, w);
    forall k | 0 <= k < |w| ensures s[i + j + k] == w[k] {
      assert w[k] == t[j..j + |w|][k] == t[j + k];
      assert t[j + k] == s[i..i + |t|][j + k];
    }
    assert s[i + j..i + j + |w|] == w;
    ContainsAt(s, w, i + j);
  }

  /** Both halves of a concatenation occur in it. */
  lemma ContainsParts(a: string, b: string)
    ensures Contains(a + b, a) && Contains(a + b, b)
  {
    assert (a + b)[0..|a|] == a;
    ContainsAt(a + b, a, 0);
    assert (a + b)[|a|..|a| + |b|] == b;
    ContainsAt(a + b, b, |a|);
  }

  /** A keyword that upper-casing leaves alone still occurs after upper-casing. */
  lemma ContainsUpper(s: string, t: string)
    requires Contains(s, t) && Upper(t) == t
    ensures Contains(Upper(s), t)
  {
    var i := ContainsWitness(s, t);
    assert Upper(s)[i..i + |t|] == Upper(s[i..i + |t|]);
    ContainsAt(Upper(s), t, i);
  }

  /** The same, for lower-casing. */
  lemma ContainsLower(s: string, t: string)
    requires Contains(s, t) && Lower(t) == t
    ensures Contains(Lower(s), t)
  {
    var i := ContainsWitness(s, t);
    assert Lower(s)[i..i + |t|] == Lower(s[i..i + |t|]);
    ContainsAt(Lower(s), t, i);
  }

  // ---------------------------------------------------------------------
  // split('\n') and its inverse
  // ---------------------------------------------------------------------

  predicate IsLineFeed(c: char) { c == '\n' }

  /** `s` holds no line feed. */
  predicate NoLineFeed(s: string) {
    forall i :: 0 <= i < |s| ==> !IsLineFeed(s[i])
  }

  /** The pieces of a split glued back together with `'\n'`. */
  function Join(pieces: seq<string>): string {
    if |pieces| == 0 then ""
    else if |pieces| == 1 then pieces[0]
    else pieces[0] + "\n" + Join(pieces[1..])
  }

  /** `s.split('\n')`: the pieces between line feeds, in order. */
  function Split(s: string): seq<string>
    decreases |s|
  {
    var k := FirstFrom(IsLineFeed, s, 0, |s|);
    if k == -1 then [s] else [s[..k]] + Split(s[k + 1..])
  }

  /**
    A split has at least one piece, no piece holds a line feed, and joining
    the pieces with line feeds gives back the string.
   */
  lemma {:induction false} SplitJoin(s: string)
    ensures |Split(s)| >= 1
    ensures forall k :: 0 <= k < |Split(s)| ==> NoLineFeed(Split(s)[k])
    ensures Join(Split(s)) == s
    decreases |s|
  {
    var k := FirstFrom(IsLineFeed, s, 0, |s|);
    if k != -1 {
      var rest := Split(s[k + 1..]);
      SplitJoin(s[k + 1..]);
      assert Split(s) == [s[..k]] + rest;
      assert Join([s[..k]] + rest) == s[..k] + "\n" + Join(rest);
      assert s == s[..k] + "\n" + s[k + 1..];
    }
  }

  /** A piece without a line feed, a line feed, and the rest: the piece comes first. */
  lemma SplitFirst(h: string, t: string)
    requires NoLineFeed(h)
    ensures Split(h + "\n" + t) == [h] + Split(t)
  {
    var s := h + "\n" + t;
    assert IsLineFeed(s[|h|]);
    assert forall j :: 0 <= j < |h| ==> s[j] == h[j];
    var k := FirstFrom(IsLineFeed, s, 0, |s|);
    assert k == |h|;
    assert s[..|h|] == h && s[|h| + 1..] == t;
  }

  /** Splitting `a + "\n" + b` splits `a` and `b` separately. */
  lemma {:induction false} SplitAppend(a: string, b: string)
    ensures Split(a + "\n" + b) == Split(a) + Split(b)
    decreases |a|
  {
    var k := FirstFrom(IsLineFeed, a, 0, |a|);
    if k == -1 {
      SplitFirst(a, b);
    } else {
      var h, a' := a[..k], a[k + 1..];
      CutAt(a, k, b);
      SplitFirst(h, a' + "\n" + b);
      SplitFirst(h, a');
      SplitAppend(a', b);
      AppendAssoc([h], Split(a'), Split(b));
    }
  }

  /** Cutting `a` at a line feed at `k`, and then appending a line feed and `b`. */
  lemma CutAt(a: string, k: nat, b: string)
    requires k < |a| && IsLineFeed(a[k])
    ensures a == a[..k] + "\n" + a[k + 1..]
    ensures a + "\n" + b == a[..k] + "\n" + (a[k + 1..] + "\n" + b)
  {
    assert a == a[..k] + "\n" + a[k + 1..];
  }

  // ---------------------------------------------------------------------
  // Decimal numerals
  // ---------------------------------------------------------------------

  function DigitChar(d: nat): (c: char)
    requires d < 10
    ensures IsDigit(c)
  {
    ('0' as int + d) as char
  }

  function DigitVal(c: char): nat
    requires IsDigit(c)
  {
    c as int - '0' as int
  }

  /** The number a string of decimal digits denotes. */
  function DigitsValue(s: string): nat
    requires AllDigits(s)
  {
    if |s| == 0 then 0 else 10 * DigitsValue(s[..|s| - 1]) + DigitVal(s[|s| - 1])
  }

  /** `n.toString()` for a non-negative integer: its decimal numeral. */
  function NatToString(n: nat): string
  {
    if n < 10 then [DigitChar(n)] else NatToString(n / 10) + [DigitChar(n % 10)]
  }

  /** A numeral is a non-empty run of digits without a leading zero. */
  lemma {:induction false} NatToStringDigits(n: nat)
    ensures var s := NatToString(n);
      |s| >= 1 && AllDigits(s) && (|s| > 1 ==> s[0] != '0')
  {
    if n >= 10 {
      NatToStringDigits(n / 10);
    }
  }

  /** Reading the numeral of `n` back gives `n`. */
  lemma {:induction false} NatToStringValue(n: nat)
    ensures AllDigits(NatToString(n)) && DigitsValue(NatToString(n)) == n
  {
    NatToStringDigits(n);
    var s := NatToString(n);
    if n >= 10 {
      NatToStringValue(n / 10);
      assert s[..|s| - 1] == NatToString(n / 10);
    }
  }

  /** The numeral of 2026, the year the parser's rollover fix writes. */
  lemma NatToString2026()
    ensures NatToString(2026) == "2026"
  {
    assert NatToString(2) == "2";
    assert NatToString(20) == "20";
    assert NatToString(202) == "202";
  }
}
