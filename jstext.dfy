/**
 * The JavaScript string and number primitives the core relies on, restricted to what
 * the core uses: the `/\D/g` digit filter, `Number.prototype.toString(radix)` on
 * non-negative integers, `padStart`, `toUpperCase` on ASCII letters and `includes`.
 * A JavaScript string is modelled as a `string`, one character per UTF-16 code unit:
 * this is exact for characters up to U+FFFF, which is what the model covers.
 */
module JsText {

  /** The code `charCodeAt` reads, for a character up to U+FFFF. */
  function CharCode(c: char): (r: nat)
    ensures r < 0x11_0000
  {
    c as int
  }

  predicate IsDigit(c: char) {
    '0' <= c <= '9'
  }

  predicate AllDigits(s: string) {
    forall i :: 0 <= i < |s| ==> IsDigit(s[i])
  }

  /** `s.replace(/\D/g, '')`: the ASCII digits of `s`, in their order. */
  function DigitsOnly(s: string): (r: string)
    ensures AllDigits(r)
    ensures |r| <= |s|
    ensures forall c :: c in r <==> c in s && IsDigit(c)
  {
    if s == [] then []
    else (if IsDigit(s[0]) then [s[0]] else []) + DigitsOnly(s[1..])
  }

  /** A string of digits passes through the filter unchanged. */
  lemma {:induction false} DigitsOnlyKeepsDigits(s: string)
    requires AllDigits(s)
    ensures DigitsOnly(s) == s
  {
    if s != [] {
      DigitsOnlyKeepsDigits(s[1..]);
    }
  }

  /** The filter works piecewise, so separators anywhere are simply dropped. */
  lemma {:induction false} DigitsOnlyConcat(a: string, b: string)
    ensures DigitsOnly(a + b) == DigitsOnly(a) + DigitsOnly(b)
  {
    if a == [] {
      assert a + b == b;
    } else {
      assert (a + b)[0] == a[0];
      assert (a + b)[1..] == a[1..] + b;
      DigitsOnlyConcat(a[1..], b);
    }
  }

  /** A string is a digit string exactly when the filter leaves it unchanged. */
  lemma DigitsOnlyFixedPoint(s: string)
    ensures DigitsOnly(s) == s <==> AllDigits(s)
  {
    if AllDigits(s) {
      DigitsOnlyKeepsDigits(s);
    }
  }

  // ---------------------------------------------------------------------------
  // Number.prototype.toString(radix) and its inverse

  /** The lower-case digit JavaScript prints for the value `d`. */
  function DigitChar(d: nat): (c: char)
    requires d < 36
  {
    if d < 10 then ('0' as int + d) as char else ('a' as int + d - 10) as char
  }

  /** The value of a digit character, either case (as `parseInt` reads it). */
  function CharValue(c: char): nat {
    if '0' <= c <= '9' then c as int - '0' as int
    else if 'a' <= c <= 'z' then c as int - 'a' as int + 10
    else if 'A' <= c <= 'Z' then c as int - 'A' as int + 10
    else 0
  }

  /** `c` is a digit JavaScript prints in base `radix` (lower case). */
  predicate IsRadixDigit(c: char, radix: nat) {
    ('0' <= c <= '9' && c as int - '0' as int < radix)
    || ('a' <= c <= 'z' && c as int - 'a' as int + 10 < radix)
  }

  lemma DigitCharValue(d: nat, radix: nat)
    requires d < radix <= 36
    ensures CharValue(DigitChar(d)) == d
    ensures IsRadixDigit(DigitChar(d), radix)
  {
  }

  /** Division by the radix: quotient and remainder, and the quotient shrinks. */
  lemma DivMod(n: nat, radix: nat)
    requires 2 <= radix
    ensures 0 <= n % radix < radix && n == n / radix * radix + n % radix
    ensures radix <= n ==> 1 <= n / radix < n
  {
  }

  /** `n.toString(radix)` for a non-negative integer: no sign, no leading zero. */
  function ToRadix(n: nat, radix: nat): (r: string)
    requires 2 <= radix <= 36
    ensures 1 <= |r|
    ensures forall i :: 0 <= i < |r| ==> IsRadixDigit(r[i], radix)
    decreases n
  {
    DivMod(n, radix);
    DigitCharValue(n % radix, radix);
    if n < radix then [DigitChar(n)]
    else ToRadix(n / radix, radix) + [DigitChar(n % radix)]
  }

  /** Reads the digits of `s` in base `radix`, most significant first. */
  function ParseRadix(s: string, radix: nat): nat {
    if s == [] then 0
    else ParseRadix(s[..|s| - 1], radix) * radix + CharValue(s[|s| - 1])
  }

  /** Printing then reading gives the number back. */
  lemma {:induction false} ParseToRadix(n: nat, radix: nat)
    requires 2 <= radix <= 36
    ensures ParseRadix(ToRadix(n, radix), radix) == n
    decreases n
  {
    DivMod(n, radix);
    DigitCharValue(n % radix, radix);
    var s := ToRadix(n, radix);
    if n < radix {
      assert s[..|s| - 1] == [];
    } else {
      assert s[..|s| - 1] == ToRadix(n / radix, radix);
      ParseToRadix(n / radix, radix);
    }
  }

  /** Only zero is printed with a leading `0`. */
  lemma {:induction false} ToRadixNoLeadingZero(n: nat, radix: nat)
    requires 2 <= radix <= 36
    ensures ToRadix(n, radix)[0] == '0' <==> n == 0
    decreases n
  {
    DivMod(n, radix);
    if n >= radix {
      ToRadixNoLeadingZero(n / radix, radix);
    }
  }

  function Pow(b: nat, k: nat): nat {
    if k == 0 then 1 else b * Pow(b, k - 1)
  }

  /** A number below `radix^k` takes at most `k` digits. */
  lemma {:induction false} ToRadixLength(n: nat, radix: nat, k: nat)
    requires 2 <= radix <= 36 && 1 <= k && n < Pow(radix, k)
    ensures |ToRadix(n, radix)| <= k
    decreases k
  {
    if n >= radix {
      assert k != 1;
      DivBelowPow(n, radix, Pow(radix, k - 1));
      ToRadixLength(n / radix, radix, k - 1);
    }
  }

  lemma DivBelowPow(n: nat, radix: nat, p: nat)
    requires 2 <= radix && n < radix * p
    ensures n / radix < p
  {
    DivMod(n, radix);
    if n / radix >= p {
      MulMonotonic(n / radix, p, radix);
    }
  }

  lemma MulMonotonic(a: nat, b: nat, c: nat)
    requires b <= a
    ensures b * c <= a * c
  {
  }

  // ---------------------------------------------------------------------------
  // padStart, toUpperCase, includes

  function Repeat(c: char, n: nat): (r: string)
    ensures |r| == n && forall i :: 0 <= i < n ==> r[i] == c
  {
    seq(n, _ => c)
  }

  /** `s.padStart(width, fill)` with a one-character fill. */
  function PadStart(s: string, width: nat, fill: char): (r: string)
    ensures |r| == if |s| < width then width else |s|
    ensures r[|r| - |s|..] == s
    ensures forall i :: 0 <= i < |r| - |s| ==> r[i] == fill
  {
    if |s| >= width then s else Repeat(fill, width - |s|) + s
  }

  function UpperChar(c: char): char {
    if 'a' <= c <= 'z' then (c as int - 32) as char else c
  }

  /** `s.toUpperCase()` on the ASCII letters; every other character is kept. */
  function ToUpperCase(s: string): (r: string)
    ensures |r| == |s|
    ensures forall i :: 0 <= i < |s| ==> r[i] == UpperChar(s[i])
  {
    seq(|s|, i requires 0 <= i < |s| => UpperChar(s[i]))
  }

  lemma ToUpperCaseIdempotent(s: string)
    ensures ToUpperCase(ToUpperCase(s)) == ToUpperCase(s)
  {
  }

  /** Upper-casing works character by character, so it distributes over
      concatenation. */
  lemma ToUpperCaseConcat(a: string, b: string)
    ensures ToUpperCase(a + b) == ToUpperCase(a) + ToUpperCase(b)
  {
  }

  /** `s.includes(t)`. */
  predicate Includes(s: string, t: string)
    decreases |s|
  {
    t <= s || (s != [] && Includes(s[1..], t))
  }

  /** `t` occurs in `s` starting at offset `i`. */
  predicate OccursAt(s: string, t: string, i: int) {
    0 <= i <= |s| - |t| && s[i..i + |t|] == t
  }

  /** When `includes` holds, `t` occurs at some offset. */
  lemma {:induction false} IncludesOccurs(s: string, t: string) returns (i: int)
    requires Includes(s, t)
    ensures OccursAt(s, t, i)
    decreases |s|
  {
    if t <= s {
      i := 0;
    } else {
      var j := IncludesOccurs(s[1..], t);
      assert s[j + 1..j + 1 + |t|] == s[1..][j..j + |t|];
      i := j + 1;
    }
  }

  /** An occurrence at any offset makes `includes` hold. */
  lemma {:induction false} OccursIncludes(s: string, t: string, i: int)
    requires OccursAt(s, t, i)
    ensures Includes(s, t)
    decreases |s|
  {
    if i != 0 {
      assert s[1..][i - 1..i - 1 + |t|] == s[i..i + |t|];
      OccursIncludes(s[1..], t, i - 1);
    }
  }

  /** `includes` holds exactly when `t` occurs in `s` at some offset. */
  lemma IncludesAtOffset(s: string, t: string)
    ensures Includes(s, t) <==> exists i :: OccursAt(s, t, i)
  {
    if Includes(s, t) {
      var i := IncludesOccurs(s, t);
    }
    if exists i :: OccursAt(s, t, i) {
      var i :| OccursAt(s, t, i);
      OccursIncludes(s, t, i);
    }
  }

  /** Whatever stands around `t`, the result includes `t`. */
  lemma IncludesInfix(a: string, t: string, b: string)
    ensures Includes(a + t + b, t)
  {
    var s := a + t + b;
    assert s[|a|..|a| + |t|] == t;
    assert OccursAt(s, t, |a|);
    IncludesAtOffset(s, t);
  }

  /** What `s` includes, anything that ends in `s` includes too. */
  lemma IncludesAfter(a: string, s: string, t: string)
    requires Includes(s, t)
    ensures Includes(a + s, t)
  {
    var i := IncludesOccurs(s, t);
    assert (a + s)[|a| + i..|a| + i + |t|] == s[i..i + |t|];
    OccursIncludes(a + s, t, |a| + i);
  }

  /** A string includes each of its prefixes. */
  lemma IncludesPrefix(t: string, r: string)
    ensures Includes(t + r, t)
  {
    assert t <= t + r;
  }
}
