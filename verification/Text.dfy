/**
 String operations of ECMAScript used by the framing and payment-rail code. A `char` stands
 for one UTF-16 code unit: the code only compares units with ASCII characters and white space,
 so which characters name the surrogates does not matter.
 */
module Text {
  import opened Prelude

  // ---- searching and splitting ----

  predicate MatchesAt(s: string, p: string, i: nat) {
    i + |p| <= |s| && s[i..i + |p|] == p
  }

  function FindFrom(s: string, p: string, i: nat): (r: Option<nat>)
    requires i <= |s|
    ensures r.Some? ==> i <= r.value && MatchesAt(s, p, r.value)
    ensures r.Some? ==> forall k :: i <= k < r.value ==> !MatchesAt(s, p, k)
    ensures r.None? ==> forall k :: i <= k ==> !MatchesAt(s, p, k)
    decreases |s| - i
  {
    if MatchesAt(s, p, i) then Some(i)
    else if i == |s| then None
    else FindFrom(s, p, i + 1)
  }

  /** `s.indexOf(p)`, with None for -1. */
  function IndexOf(s: string, p: string): (r: Option<nat>)
    ensures r.Some? ==> r.value + |p| <= |s| && s[r.value..r.value + |p|] == p
  {
    FindFrom(s, p, 0)
  }

  lemma IndexOfIs(s: string, p: string, i: nat)
    requires MatchesAt(s, p, i)
    requires forall k :: 0 <= k < i ==> !MatchesAt(s, p, k)
    ensures IndexOf(s, p) == Some(i)
  {
    var r := IndexOf(s, p);
    assert r.Some?;
  }

  /** A first match stays the first match when text is appended. */
  lemma IndexOfStable(s: string, t: string, p: string)
    requires IndexOf(s, p).Some?
    ensures IndexOf(s + t, p) == IndexOf(s, p)
  {
    var i := IndexOf(s, p).value;
    assert (s + t)[i..i + |p|] == s[i..i + |p|];
    forall k | 0 <= k < i
      ensures !MatchesAt(s + t, p, k)
    {
      assert !MatchesAt(s, p, k);
      assert (s + t)[k..k + |p|] == s[k..k + |p|];
    }
    IndexOfIs(s + t, p, i);
  }

  /** `s.split(sep)`. */
  function Split(s: string, sep: string): (parts: seq<string>)
    requires sep != ""
    ensures |parts| >= 1
    decreases |s|
  {
    match IndexOf(s, sep)
    case None => [s]
    case Some(i) => [s[..i]] + Split(s[i + |sep|..], sep)
  }

  predicate StartsWith(s: string, p: string) {
    MatchesAt(s, p, 0)
  }

  // ---- white space and case ----

  /** White space and line terminators, as `trim` and number parsing skip them. */
  predicate IsSpace(c: char) {
    var n := c as int;
    9 <= n <= 13 || n == 0x20 || n == 0xA0 || n == 0x1680 || 0x2000 <= n <= 0x200A ||
    n == 0x2028 || n == 0x2029 || n == 0x202F || n == 0x205F || n == 0x3000 || n == 0xFEFF
  }

  function TrimStart(s: string): (r: string)
    ensures r == "" || !IsSpace(r[0])
  {
    if s == "" || !IsSpace(s[0]) then s else TrimStart(s[1..])
  }

  function TrimEnd(s: string): (r: string)
    ensures r <= s
    ensures r == "" || !IsSpace(r[|r| - 1])
  {
    if s == "" || !IsSpace(s[|s| - 1]) then s else TrimEnd(s[..|s| - 1])
  }

  /** `s.trim()`. */
  function Trim(s: string): (r: string)
    ensures r == "" || (!IsSpace(r[0]) && !IsSpace(r[|r| - 1]))
  {
    TrimEnd(TrimStart(s))
  }

  function LowerChar(c: char): char {
    if 'A' <= c <= 'Z' then (c as int + 32) as char else c
  }

  /**
   `s.toLowerCase()` on ASCII. No other character lowers to a hexadecimal digit, an `x`, or a
   letter of "content-length", so every test the code makes on a lowered string agrees.
   */
  function Lower(s: string): (r: string)
    ensures |r| == |s|
    ensures forall i :: 0 <= i < |s| ==> r[i] == LowerChar(s[i])
  {
    seq(|s|, i requires 0 <= i < |s| => LowerChar(s[i]))
  }

  function Repeat(c: char, n: nat): (r: string)
    ensures |r| == n && forall i :: 0 <= i < n ==> r[i] == c
  {
    seq(n, i => c)
  }

  // ---- numerals ----

  predicate IsDigit(c: char) { '0' <= c <= '9' }

  predicate IsHexDigit(c: char) {
    '0' <= c <= '9' || 'a' <= c <= 'f' || 'A' <= c <= 'F'
  }

  predicate AllDigits(s: string) { forall i :: 0 <= i < |s| ==> IsDigit(s[i]) }

  predicate AllHex(s: string) { forall i :: 0 <= i < |s| ==> IsHexDigit(s[i]) }

  function DigitValue(c: char): nat {
    if '0' <= c <= '9' then c as int - '0' as int
    else if 'a' <= c <= 'f' then c as int - 'a' as int + 10
    else if 'A' <= c <= 'F' then c as int - 'A' as int + 10
    else 0
  }

  function DigitChar(d: nat): char
    requires d < 16
  {
    if d < 10 then ('0' as int + d) as char else ('a' as int + d - 10) as char
  }

  /** The number a numeral denotes, most significant digit first. */
  function Value(s: string, base: nat): nat {
    if s == "" then 0 else Value(s[..|s| - 1], base) * base + DigitValue(s[|s| - 1])
  }

  lemma Division(n: nat, base: nat)
    requires base >= 2
    ensures n / base * base + n % base == n
    ensures n >= 1 ==> n / base < n
  {}

  lemma DigitCharValue(d: nat)
    requires d < 16
    ensures DigitValue(DigitChar(d)) == d
    ensures IsHexDigit(DigitChar(d))
    ensures d < 10 ==> IsDigit(DigitChar(d))
  {}

  /** `n.toString(base)`. */
  function Digits(n: nat, base: nat): (s: string)
    requires 2 <= base <= 16
    ensures |s| >= 1
    ensures AllHex(s)
    ensures base <= 10 ==> AllDigits(s)
  {
    Division(n, base);
    DigitCharValue(n % base);
    if n < base then [DigitChar(n % base)]
    else Digits(n / base, base) + [DigitChar(n % base)]
  }

  lemma {:induction false} ValueOfDigits(n: nat, base: nat)
    requires 2 <= base <= 16
    ensures Value(Digits(n, base), base) == n
  {
    Division(n, base);
    DigitCharValue(n % base);
    if n < base {
      SmallRemainder(n, base);
      ValueSnoc("", DigitChar(n), base);
      assert "" + [DigitChar(n)] == [DigitChar(n)];
    } else {
      ValueOfDigits(n / base, base);
      calc {
        Value(Digits(n, base), base);
        Value(Digits(n / base, base) + [DigitChar(n % base)], base);
        { ValueSnoc(Digits(n / base, base), DigitChar(n % base), base); }
        Value(Digits(n / base, base), base) * base + DigitValue(DigitChar(n % base));
        n / base * base + n % base;
        n;
      }
    }
  }

  lemma SmallRemainder(n: nat, base: nat)
    requires n < base
    ensures n % base == n
  {}

  lemma ValueSnoc(s: string, c: char, base: nat)
    ensures Value(s + [c], base) == Value(s, base) * base + DigitValue(c)
  {
    var u := s + [c];
    assert u[..|u| - 1] == s && u[|u| - 1] == c;
  }

  function Pow(b: nat, k: nat): nat {
    if k == 0 then 1 else b * Pow(b, k - 1)
  }

  lemma PowPositive(b: nat, k: nat)
    requires b >= 1
    ensures Pow(b, k) >= 1
  {}

  lemma {:induction false} PowAdd(b: nat, j: nat, k: nat)
    ensures Pow(b, j + k) == Pow(b, j) * Pow(b, k)
  {
    if j > 0 {
      PowAdd(b, j - 1, k);
      assert Pow(b, j + k) == b * Pow(b, j - 1 + k);
    }
  }

  lemma {:induction false} ValueAppend(s: string, t: string, base: nat)
    ensures Value(s + t, base) == Value(s, base) * Pow(base, |t|) + Value(t, base)
  {
    if t == "" {
      assert s + t == s;
    } else {
      var u, c := t[..|t| - 1], t[|t| - 1];
      assert t == u + [c] && s + t == (s + u) + [c];
      ValueAppend(s, u, base);
      ValueSnoc(s + u, c, base);
      ValueSnoc(u, c, base);
      Redistribute(Value(s, base), Pow(base, |u|), Value(u, base), base, DigitValue(c));
    }
  }

  lemma Redistribute(v: nat, p: nat, w: nat, base: nat, d: nat)
    ensures (v * p + w) * base + d == v * (base * p) + (w * base + d)
  {}

  lemma {:induction false} ValueOfZeros(n: nat, base: nat)
    ensures Value(Repeat('0', n), base) == 0
  {
    if n > 0 {
      ValueOfZeros(n - 1, base);
      assert Repeat('0', n)[..n - 1] == Repeat('0', n - 1);
    }
  }

  /** The longest prefix of decimal digits. */
  function DigitPrefix(s: string): (r: string)
    ensures AllDigits(r) && r <= s
  {
    if s == "" || !IsDigit(s[0]) then "" else [s[0]] + DigitPrefix(s[1..])
  }

  lemma DigitPrefixOfDigits(s: string)
    requires AllDigits(s)
    ensures DigitPrefix(s) == s
  {}

  /** `Number.parseInt(s, 10)`, with None for NaN. */
  function ParseInt(s: string): Option<int> {
    var u := TrimStart(s);
    var negative := u != "" && u[0] == '-';
    var body := if u != "" && (u[0] == '-' || u[0] == '+') then u[1..] else u;
    var digits := DigitPrefix(body);
    if digits == "" then None
    else if negative then Some(-(Value(digits, 10) as int))
    else Some(Value(digits, 10))
  }

  lemma ParseIntOfDigits(n: nat)
    ensures Trim(Digits(n, 10)) == Digits(n, 10)
    ensures ParseInt(Digits(n, 10)) == Some(n)
  {
    hide Digits, Value;
    var s := Digits(n, 10);
    assert IsDigit(s[0]) && IsDigit(s[|s| - 1]);
    ValueOfDigits(n, 10);
    DigitPrefixOfDigits(s);
    assert TrimStart(s) == s;
  }
}
