/** String helpers that the reporter relies on from the JavaScript runtime:
    `Array.prototype.join`, `String.prototype.split` with a one-character
    separator, and the decimal rendering of a non-negative whole number. */
module Strings {

  /** `xs.join(sep)`: the elements in order with `sep` between neighbours;
      the empty array joins to the empty string. */
  function Join(xs: seq<string>, sep: string): string
    decreases |xs|
  {
    if |xs| == 0 then ""
    else if |xs| == 1 then xs[0]
    else Join(xs[..|xs| - 1], sep) + sep + xs[|xs| - 1]
  }

  /** `s.split(c)` for a one-character separator: always at least one
      piece, and an empty piece on each side of every separator. */
  function Split(s: string, c: char): (pieces: seq<string>)
    ensures |pieces| > 0
    decreases |s|
  {
    if |s| == 0 then [""]
    else
      var r := Split(s[..|s| - 1], c);
      if s[|s| - 1] == c then r + [""]
      else r[..|r| - 1] + [r[|r| - 1] + [s[|s| - 1]]]
  }

  lemma JoinAppend(xs: seq<string>, x: string, sep: string)
    requires |xs| > 0
    ensures Join(xs + [x], sep) == Join(xs, sep) + sep + x
  {
    assert (xs + [x])[..|xs|] == xs;
  }

  /** A character that occurs once in the separator and in no piece occurs
      exactly once between each pair of neighbours. */
  lemma {:induction false} JoinSeparatorCount(xs: seq<string>, sep: string, c: char)
    requires forall i :: 0 <= i < |xs| ==> c !in xs[i]
    requires multiset(sep)[c] == 1
    ensures multiset(Join(xs, sep))[c] == if |xs| == 0 then 0 else |xs| - 1
    decreases |xs|
  {
    if |xs| > 1 {
      var init := xs[..|xs| - 1];
      JoinSeparatorCount(init, sep, c);
      assert c !in xs[|xs| - 1];
      assert multiset(Join(xs, sep)) == multiset(Join(init, sep)) + multiset(sep) + multiset(xs[|xs| - 1]);
    } else if |xs| == 1 {
      assert c !in xs[0];
    }
  }

  /** Splitting after a separator starts a fresh piece. */
  lemma {:induction false} SplitAfterSeparator(a: string, b: string, c: char)
    requires c !in b
    ensures Split(a + [c] + b, c) == Split(a, c) + [b]
    decreases |b|
  {
    if |b| == 0 {
      assert a + [c] + b == a + [c];
      assert (a + [c])[..|a|] == a;
    } else {
      var b' := b[..|b| - 1];
      SplitAfterSeparator(a, b', c);
      var s := a + [c] + b;
      assert s[..|s| - 1] == a + [c] + b';
      assert s[|s| - 1] == b[|b| - 1];
      assert b' + [b[|b| - 1]] == b;
    }
  }

  /** A string without the separator is a single piece. */
  lemma {:induction false} SplitNoSeparator(s: string, c: char)
    requires c !in s
    ensures Split(s, c) == [s]
    decreases |s|
  {
    if |s| > 0 {
      SplitNoSeparator(s[..|s| - 1], c);
      assert s[..|s| - 1] + [s[|s| - 1]] == s;
    }
  }

  /** Joining with a one-character separator and splitting on it again gives
      back the original pieces, provided no piece holds that character. */
  lemma {:induction false} SplitJoin(xs: seq<string>, c: char)
    requires |xs| > 0
    requires forall i :: 0 <= i < |xs| ==> c !in xs[i]
    ensures Split(Join(xs, [c]), c) == xs
    decreases |xs|
  {
    if |xs| == 1 {
      SplitNoSeparator(xs[0], c);
    } else {
      var init := xs[..|xs| - 1];
      SplitJoin(init, c);
      SplitAfterSeparator(Join(init, [c]), xs[|xs| - 1], c);
      assert init + [xs[|xs| - 1]] == xs;
    }
  }

  /** The character of a decimal digit value. */
  function DigitChar(d: nat): (c: char)
    requires d < 10
    ensures '0' <= c <= '9'
  {
    ['0', '1', '2', '3', '4', '5', '6', '7', '8', '9'][d]
  }

  predicate IsDigit(c: char) {
    '0' <= c <= '9'
  }

  function DigitValue(c: char): (d: nat)
    requires IsDigit(c)
    ensures d < 10 && DigitChar(d) == c
  {
    if c == '0' then 0 else if c == '1' then 1 else if c == '2' then 2
    else if c == '3' then 3 else if c == '4' then 4 else if c == '5' then 5
    else if c == '6' then 6 else if c == '7' then 7 else if c == '8' then 8
    else 9
  }

  /** Decimal rendering of a non-negative whole number, as
      `Number.prototype.toFixed(0)` prints one: no sign, no leading zeros. */
  function DecimalString(n: nat): (s: string)
    ensures |s| > 0
    ensures forall i :: 0 <= i < |s| ==> IsDigit(s[i])
    ensures s[0] == '0' ==> n == 0 && s == "0"
    decreases n
  {
    if n < 10 then [DigitChar(n)] else DecimalString(n / 10) + [DigitChar(n % 10)]
  }

  /** The number that a string of decimal digits denotes. */
  function DecimalValue(s: string): nat
    requires forall i :: 0 <= i < |s| ==> IsDigit(s[i])
    decreases |s|
  {
    if |s| == 0 then 0
    else 10 * DecimalValue(s[..|s| - 1]) + DigitValue(s[|s| - 1])
  }

  /** Reading the decimal rendering back gives the number. */
  lemma {:induction false} DecimalRoundTrip(n: nat)
    ensures DecimalValue(DecimalString(n)) == n
    decreases n
  {
    var s := DecimalString(n);
    if n >= 10 {
      DecimalRoundTrip(n / 10);
      assert s[..|s| - 1] == DecimalString(n / 10);
    }
  }
}
