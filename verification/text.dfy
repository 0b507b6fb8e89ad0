/** The string behaviour of JavaScript that the auth code relies on:
    truthiness of a field, `toLowerCase`, and `Number.prototype.toString`
    on a non-negative integer. */
module Text {
  import opened Wrappers

  /** JavaScript truthiness of an optional string: `undefined`/`null`
      (absent) and `""` are falsy, every other string is truthy. */
  predicate Truthy(f: Option<string>) {
    f.Some? && f.value != ""
  }

  /** `toLowerCase` on one character, restricted to the ASCII letters. */
  function LowerChar(c: char): char {
    if 'A' <= c <= 'Z' then (c as int - 'A' as int + 'a' as int) as char else c
  }

  function Lower(s: string): (r: string)
    ensures |r| == |s|
  {
    seq(|s|, i requires 0 <= i < |s| => LowerChar(s[i]))
  }

  /** The email match every route uses: `a.toLowerCase() === b.toLowerCase()`. */
  predicate SameEmail(a: string, b: string) {
    Lower(a) == Lower(b)
  }

  predicate HasNoUpper(s: string) {
    forall i :: 0 <= i < |s| ==> !('A' <= s[i] <= 'Z')
  }

  /** Lower-casing turns each capital into its own lower-case letter and
      keeps every other character, so it yields a string without upper-case
      letters, leaves such strings alone, and is idempotent. */
  lemma LowerNormalises(s: string)
    ensures forall i :: 0 <= i < |s| && 'A' <= s[i] <= 'Z' ==>
              Lower(s)[i] as int == s[i] as int + ('a' as int - 'A' as int)
    ensures forall i :: 0 <= i < |s| && !('A' <= s[i] <= 'Z') ==> Lower(s)[i] == s[i]
    ensures HasNoUpper(Lower(s))
    ensures HasNoUpper(s) ==> Lower(s) == s
    ensures Lower(Lower(s)) == Lower(s)
  {
    var l := Lower(s);
    assert forall i :: 0 <= i < |s| ==> l[i] == LowerChar(s[i]);
    var ll := Lower(l);
    assert forall i :: 0 <= i < |s| ==> ll[i] == LowerChar(l[i]) == l[i];
  }

  // ---------------------------------------------------------------------------
  // Decimal rendering of ids: `(users.length + 1).toString()`.

  predicate IsDigit(c: char) {
    '0' <= c <= '9'
  }

  function DigitChar(d: nat): (c: char)
    requires d < 10
    ensures IsDigit(c)
  {
    (d + '0' as int) as char
  }

  function DigitValue(c: char): (d: nat)
    requires IsDigit(c)
    ensures d < 10
  {
    c as int - '0' as int
  }

  /** Canonical decimal text of `n`: digits only, no leading zero except "0". */
  function Decimal(n: nat): (r: string)
    ensures |r| >= 1
    ensures forall i :: 0 <= i < |r| ==> IsDigit(r[i])
    ensures r[0] == '0' ==> n == 0 && r == "0"
    decreases n
  {
    if n < 10 then [DigitChar(n)] else Decimal(n / 10) + [DigitChar(n % 10)]
  }

  /** The value denoted by a string of digits (what `parseInt` reads back). */
  function DecimalValue(s: string): nat
    requires forall i :: 0 <= i < |s| ==> IsDigit(s[i])
    decreases |s|
  {
    if |s| == 0 then 0 else DecimalValue(s[..|s| - 1]) * 10 + DigitValue(s[|s| - 1])
  }

  lemma {:induction false} DecimalRoundTrip(n: nat)
    ensures DecimalValue(Decimal(n)) == n
    decreases n
  {
    if n >= 10 {
      var r := Decimal(n);
      var p := Decimal(n / 10);
      assert r == p + [DigitChar(n % 10)];
      assert r[..|r| - 1] == p;
      DecimalRoundTrip(n / 10);
    }
  }

  /** Distinct numbers have distinct decimal texts. */
  lemma DecimalInjective(a: nat, b: nat)
    requires a != b
    ensures Decimal(a) != Decimal(b)
  {
    DecimalRoundTrip(a);
    DecimalRoundTrip(b);
  }
}
