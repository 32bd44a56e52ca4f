/**
  The three string primitives the chat and upload code lean on:
  JavaScript's `String.prototype.trim`, `Array.prototype.join`, and the
  decimal rendering of a non-negative integer inside a template literal.
 */
module Text {

  /** WhiteSpace and LineTerminator code points that `trim` removes (ECMA-262, sections 12.2 and 12.3). */
  predicate IsJsWhitespace(c: char) {
    var n := c as int;
    || n == 0x09 || n == 0x0B || n == 0x0C || n == 0x20 || n == 0xA0 || n == 0xFEFF
    || n == 0x0A || n == 0x0D || n == 0x2028 || n == 0x2029
    || n == 0x1680 || (0x2000 <= n <= 0x200A) || n == 0x202F || n == 0x205F || n == 0x3000
  }

  predicate AllWhitespace(s: string) {
    forall i :: 0 <= i < |s| ==> IsJsWhitespace(s[i])
  }

  /** The index of the first character at or after `i` that is not white space, or `|s|` if there is none. */
  function SkipLeading(s: string, i: nat): (n: nat)
    requires i <= |s|
    ensures i <= n <= |s|
    ensures forall k :: i <= k < n ==> IsJsWhitespace(s[k])
    ensures n < |s| ==> !IsJsWhitespace(s[n])
    decreases |s| - i
  {
    if i < |s| && IsJsWhitespace(s[i]) then SkipLeading(s, i + 1) else i
  }

  /**
    The index just past the last character before `j` (and at or after `lo`)
    that is not white space, or `lo` if there is none.
   */
  function SkipTrailing(s: string, lo: nat, j: nat): (m: nat)
    requires lo <= j <= |s|
    ensures lo <= m <= j
    ensures forall k :: m <= k < j ==> IsJsWhitespace(s[k])
    ensures lo < m ==> !IsJsWhitespace(s[m - 1])
    decreases j
  {
    if lo < j && IsJsWhitespace(s[j - 1]) then SkipTrailing(s, lo, j - 1) else j
  }

  /** `s.trim()`: neither end of the result is white space. */
  function Trim(s: string): (r: string)
    ensures |r| <= |s|
    ensures r == [] || (!IsJsWhitespace(r[0]) && !IsJsWhitespace(r[|r| - 1]))
  {
    var i := SkipLeading(s, 0);
    s[i..SkipTrailing(s, i, |s|)]
  }

  /**
    `trim` cuts `s` into leading white space, the result and trailing white
    space, and nothing else.
   */
  lemma TrimIsMiddleSlice(s: string)
    ensures var i := SkipLeading(s, 0); var j := SkipTrailing(s, i, |s|);
      && s == s[..i] + Trim(s) + s[j..]
      && AllWhitespace(s[..i]) && AllWhitespace(s[j..])
  {
    var i := SkipLeading(s, 0);
    var j := SkipTrailing(s, i, |s|);
    assert Trim(s) == s[i..j];
    ThreeParts(s, i, j);
  }

  /** Cutting `s` at `i` and `j`, where the outer parts are white space. */
  lemma ThreeParts(s: string, i: nat, j: nat)
    requires i <= j <= |s|
    requires forall k :: 0 <= k < i ==> IsJsWhitespace(s[k])
    requires forall k :: j <= k < |s| ==> IsJsWhitespace(s[k])
    ensures s == s[..i] + s[i..j] + s[j..]
    ensures AllWhitespace(s[..i]) && AllWhitespace(s[j..])
  {
    assert s == s[..i] + s[i..j] + s[j..];
    forall k | 0 <= k < |s| - j
      ensures IsJsWhitespace(s[j..][k])
    {
      assert s[j..][k] == s[j + k];
    }
  }

  /** `trim` yields the empty (falsy) string exactly when every character is white space. */
  lemma TrimEmptyIffAllWhitespace(s: string)
    ensures Trim(s) == [] <==> AllWhitespace(s)
  {
  }

  /** `xs.join(sep)`: the items in order with `sep` between neighbours; the empty list joins to "". */
  function Join(sep: string, xs: seq<string>): (r: string)
    ensures |xs| == 0 ==> r == []
    ensures |xs| == 1 ==> r == xs[0]
    decreases |xs|
  {
    if |xs| == 0 then []
    else if |xs| == 1 then xs[0]
    else Join(sep, xs[..|xs| - 1]) + sep + xs[|xs| - 1]
  }

  function TotalLength(xs: seq<string>): nat
    decreases |xs|
  {
    if |xs| == 0 then 0 else TotalLength(xs[..|xs| - 1]) + |xs[|xs| - 1]|
  }

  /** A join is as long as its items together plus one separator between each pair of neighbours. */
  lemma {:induction false} JoinLength(sep: string, xs: seq<string>)
    requires |xs| > 0
    ensures |Join(sep, xs)| == TotalLength(xs) + (|xs| - 1) * |sep|
    decreases |xs|
  {
    if |xs| > 1 {
      JoinLength(sep, xs[..|xs| - 1]);
    }
  }

  /** Where item `k` starts in `Join(sep, xs)`: after the join of the items before it and one separator. */
  function ItemOffset(sep: string, xs: seq<string>, k: nat): nat
    requires k <= |xs|
  {
    if k == 0 then 0 else |Join(sep, xs[..k])| + |sep|
  }

  /** Joining a prefix of the items gives a prefix of the whole join. */
  lemma {:induction false} JoinPrefix(sep: string, xs: seq<string>, k: nat)
    requires k <= |xs|
    ensures Join(sep, xs[..k]) <= Join(sep, xs)
    decreases |xs| - k
  {
    if k == |xs| {
      assert xs[..k] == xs;
    } else if k == 0 {
    } else {
      JoinPrefix(sep, xs, k + 1);
      var ys := xs[..k + 1];
      assert ys[..|ys| - 1] == xs[..k];
      assert Join(sep, ys) == Join(sep, xs[..k]) + sep + xs[k];
    }
  }

  /**
    Item `k` sits intact at `ItemOffset(sep, xs, k)`, preceded by a separator
    unless it is the first; so the join keeps the items in their given order.
   */
  lemma JoinPlacesItem(sep: string, xs: seq<string>, k: nat)
    requires k < |xs|
    ensures ItemOffset(sep, xs, k) + |xs[k]| <= |Join(sep, xs)|
    ensures Join(sep, xs)[ItemOffset(sep, xs, k)..ItemOffset(sep, xs, k) + |xs[k]|] == xs[k]
    ensures k > 0 ==> Join(sep, xs)[ItemOffset(sep, xs, k) - |sep|..ItemOffset(sep, xs, k)] == sep
  {
    var ys := xs[..k + 1];
    JoinPrefix(sep, xs, k + 1);
    var whole := Join(sep, xs);
    var head := Join(sep, ys);
    assert head == whole[..|head|];
    if k == 0 {
      assert head == xs[0];
    } else {
      assert ys[..|ys| - 1] == xs[..k];
      assert head == Join(sep, xs[..k]) + sep + xs[k];
      var o := ItemOffset(sep, xs, k);
      assert head[o..o + |xs[k]|] == xs[k];
      assert head[o - |sep|..o] == sep;
    }
  }

  /** Every item sits intact at its offset in the join. */
  lemma JoinPlacesAll(sep: string, xs: seq<string>)
    ensures forall k :: 0 <= k < |xs| ==>
      ItemOffset(sep, xs, k) + |xs[k]| <= |Join(sep, xs)|
      && Join(sep, xs)[ItemOffset(sep, xs, k)..ItemOffset(sep, xs, k) + |xs[k]|] == xs[k]
  {
    forall k | 0 <= k < |xs|
      ensures ItemOffset(sep, xs, k) + |xs[k]| <= |Join(sep, xs)|
      ensures Join(sep, xs)[ItemOffset(sep, xs, k)..ItemOffset(sep, xs, k) + |xs[k]|] == xs[k]
    {
      JoinPlacesItem(sep, xs, k);
    }
  }

  /** Later items start strictly after earlier ones end. */
  lemma ItemOffsetsIncrease(sep: string, xs: seq<string>, k: nat)
    requires k + 1 < |xs|
    ensures ItemOffset(sep, xs, k) + |xs[k]| + |sep| == ItemOffset(sep, xs, k + 1)
  {
    var ys := xs[..k + 1];
    assert ys[..|ys| - 1] == xs[..k];
    if k == 0 {
      assert Join(sep, ys) == xs[0];
    } else {
      assert Join(sep, ys) == Join(sep, xs[..k]) + sep + xs[k];
    }
  }

  predicate IsDigit(c: char) {
    '0' <= c <= '9'
  }

  function DigitChar(d: nat): (c: char)
    requires d < 10
    ensures IsDigit(c) && DigitValue(c) == d
  {
    (('0' as int) + d) as char
  }

  /** What a template literal prints for a non-negative integer number: its decimal digits, no leading zero. */
  function NatToDecimal(n: nat): (s: string)
    ensures |s| >= 1
    ensures forall i :: 0 <= i < |s| ==> IsDigit(s[i])
    ensures s[0] == '0' ==> n == 0
  {
    if n < 10 then [DigitChar(n)] else NatToDecimal(n / 10) + [DigitChar(n % 10)]
  }

  function DigitValue(c: char): nat
    requires IsDigit(c)
  {
    (c as int) - ('0' as int)
  }

  /** The value a digit string denotes. */
  function DecimalValue(s: string): nat
    requires forall i :: 0 <= i < |s| ==> IsDigit(s[i])
    decreases |s|
  {
    if |s| == 0 then 0
    else 10 * DecimalValue(s[..|s| - 1]) + DigitValue(s[|s| - 1])
  }

  /** Reading the decimal rendering back gives the number. */
  lemma {:induction false} DecimalRoundTrip(n: nat)
    ensures DecimalValue(NatToDecimal(n)) == n
  {
    var s := NatToDecimal(n);
    if n >= 10 {
      DecimalRoundTrip(n / 10);
      assert s[..|s| - 1] == NatToDecimal(n / 10);
    }
  }

  /** Different numbers render differently. */
  lemma NatToDecimalInjective(m: nat, n: nat)
    requires m != n
    ensures NatToDecimal(m) != NatToDecimal(n)
  {
    DecimalRoundTrip(m);
    DecimalRoundTrip(n);
  }
}
