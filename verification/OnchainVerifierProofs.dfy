/** Exact amounts, words that read back, and what a verified payment means. */
module OnchainVerifierProofs {
  import opened Prelude
  import opened Text
  import opened OnchainVerifier

  // ---- the number a decimal string denotes ----

  /** The digits without the point, over ten to the number of digits after it. */
  function Amount(s: string): real {
    (Value(DigitPrefix(s) + FractionDigits(s), 10) as real) / Power(10, |FractionDigits(s)|)
  }

  function Power(b: nat, k: nat): (r: real)
    requires b >= 1
    ensures r >= 1.0
  {
    PowPositive(b, k);
    Pow(b, k) as real
  }

  lemma NoPoint(s: string)
    requires AllDigits(s)
    ensures IndexOf(s, ".") == None && Split(s, ".") == [s]
  {
    forall k | 0 <= k < |s|
      ensures !MatchesAt(s, ".", k)
    {
      assert s[k..k + 1][0] == s[k];
    }
  }

  lemma SplitDecimal(s: string)
    requires IsDecimal(s)
    ensures var w, f := DigitPrefix(s), FractionDigits(s);
            AllDigits(w) && AllDigits(f) && Split(s, ".") == if f == "" then [w] else [w, f]
  {
    var w, f := DigitPrefix(s), FractionDigits(s);
    if f == "" {
      assert s == w;
      NoPoint(s);
    } else {
      NoPoint(f);
      assert s[..|w|] == w;
      SplitAt(s, |w|);
    }
  }

  lemma SplitAt(s: string, i: nat)
    requires i < |s| && s[i] == '.' && AllDigits(s[..i])
    requires Split(s[i + 1..], ".") == [s[i + 1..]]
    ensures Split(s, ".") == [s[..i], s[i + 1..]]
  {
    assert s[i..i + 1] == ".";
    forall k | 0 <= k < i
      ensures !MatchesAt(s, ".", k)
    {
      assert s[k..k + 1][0] == s[..i][k];
    }
    IndexOfIs(s, ".", i);
  }

  lemma TrimDecimal(s: string)
    requires IsDecimal(s)
    ensures Trim(s) == s
  {
    var w, f := DigitPrefix(s), FractionDigits(s);
    assert IsDigit(s[0]) && IsDigit(s[|s| - 1]) by {
      assert s[0] == w[0];
      if f != "" {
        assert s[|s| - 1] == f[|f| - 1];
      } else {
        assert s[|s| - 1] == w[|w| - 1];
      }
    }
    assert TrimStart(s) == s && TrimEnd(s) == s;
  }

  lemma ScaledPlain(w: string, f: string, d: nat)
    ensures Scaled(w, f, d) == Value(w, 10) * Pow(10, d) + Value(f, 10)
  {
    assert Value("0", 10) == Value("", 10) == 0 by { assert "0"[..0] == ""; }
    hide Value, Pow;
  }

  /** Scaling by zeros: whole 10^d + fraction padded to d digits is all digits times 10^(d - f). */
  lemma PaddedValue(w: string, f: string, d: nat)
    requires |f| <= d
    ensures Scaled(w, PadEnd(f, d), d) == Value(w + f, 10) * Pow(10, d - |f|)
  {
    hide Value, Pow, Scaled;
    ScaledPlain(w, PadEnd(f, d), d);
    assert PadEnd(f, d) == f + Repeat('0', d - |f|);
    PowAdd(10, |f|, d - |f|);
    ValueAppend(f, Repeat('0', d - |f|), 10);
    ValueOfZeros(d - |f|, 10);
    ValueAppend(w, f, 10);
    Distribute(Value(w, 10), Pow(10, |f|), Pow(10, d - |f|), Value(f, 10));
  }

  lemma Distribute(v: nat, p: nat, q: nat, u: nat)
    ensures v * (p * q) + u * q == (v * p + u) * q
  {}

  lemma TimesQuotient(v: real, p: real, q: real)
    requires p > 0.0
    ensures (v / p) * (p * q) == v * q
  {
    Associate(v / p, p, q);
  }

  lemma Associate(a: real, b: real, c: real)
    ensures (a * b) * c == a * (b * c)
  {}

  lemma Less(a: real, b: real, q: real)
    requires q > 0.0 && a < b
    ensures a * q < b * q
  {
    assert (b - a) * q > 0.0;
  }

  lemma CancelRight(a: real, b: real, q: real)
    requires q > 0.0 && a * q == b * q
    ensures a == b
  {
    if a < b {
      Less(a, b, q);
    } else if b < a {
      Less(b, a, q);
    }
  }

  lemma PowerAdd(b: nat, j: nat, k: nat)
    requires b >= 1
    ensures Power(b, j + k) == Power(b, j) * Power(b, k)
  {
    PowAdd(b, j, k);
    hide Pow;
  }

  lemma ScaledAmount(s: string, d: nat)
    requires |FractionDigits(s)| <= d
    ensures Amount(s) * Power(10, d) ==
            (Value(DigitPrefix(s) + FractionDigits(s), 10) * Pow(10, d - |FractionDigits(s)|)) as real
  {
    hide Value, Pow, FractionDigits, DigitPrefix;
    var f := FractionDigits(s);
    var v := Value(DigitPrefix(s) + f, 10);
    PowerAdd(10, |f|, d - |f|);
    TimesQuotient(v as real, Power(10, |f|), Power(10, d - |f|));
  }

  lemma AcceptedShape(s: string, d: nat)
    ensures DecimalToUnits(s, d).Ok? <==> IsDecimal(s) && |FractionDigits(s)| <= d
  {
    if IsDecimal(s) {
      SplitDecimal(s);
      hide IsDecimal, Split, FractionDigits, DigitPrefix;
    }
  }

  /**
   Units are exact: a string is accepted exactly when it is a plain decimal with no more than
   the allowed digits after the point, and the units are the amount it denotes times 10^decimals.
   */
  lemma UnitsExact(s: string, d: nat)
    ensures var r := DecimalToUnits(s, d);
            && (r.Ok? <==> IsDecimal(s) && |FractionDigits(s)| <= d)
            && (r.Ok? ==> r.value as real == Amount(s) * Power(10, d))
  {
    AcceptedShape(s, d);
    if IsDecimal(s) && |FractionDigits(s)| <= d {
      hide IsDecimal, FractionDigits, DigitPrefix, Value, Pow, Amount, Power, DecimalToUnits, Scaled, PadEnd;
      UnitsPadded(s, d);
      PaddedValue(DigitPrefix(s), FractionDigits(s), d);
      ScaledAmount(s, d);
    }
  }

  lemma UnitsPadded(s: string, d: nat)
    requires IsDecimal(s) && |FractionDigits(s)| <= d
    ensures DecimalToUnits(s, d) ==
            Ok(Scaled(DigitPrefix(s), PadEnd(FractionDigits(s), d), d))
  {
    SplitDecimal(s);
    hide Scaled, PadEnd, Split, IsDecimal, FractionDigits, DigitPrefix;
  }

  /** Two accepted strings have equal units exactly when they denote the same amount. */
  lemma SameUnitsSameAmount(s: string, t: string, d: nat)
    requires DecimalToUnits(s, d).Ok? && DecimalToUnits(t, d).Ok?
    ensures DecimalToUnits(s, d) == DecimalToUnits(t, d) <==> Amount(s) == Amount(t)
  {
    UnitsExact(s, d);
    UnitsExact(t, d);
    hide DecimalToUnits, Amount, Power, IsDecimal, FractionDigits;
    var x, y := DecimalToUnits(s, d).value, DecimalToUnits(t, d).value;
    assert x as real == y as real <==> x == y by {
      assert (x as real).Floor == x && (y as real).Floor == y;
    }
    if x == y {
      CancelRight(Amount(s), Amount(t), Power(10, d));
    }
  }

  // ---- the page and the server ----

  lemma {:induction false} ValueBound(s: string)
    requires AllDigits(s)
    ensures Value(s, 10) < Pow(10, |s|)
  {
    if s != "" {
      ValueBound(s[..|s| - 1]);
    }
  }

  lemma BigIntOfDigits(s: string)
    requires AllDigits(s) && s != ""
    ensures BigIntOf(s) == Some(Value(s, 10))
  {
    assert TrimStart(s) == s && TrimEnd(s) == s;
  }

  lemma CutDigits(f: string, d: nat)
    requires AllDigits(f)
    ensures AllDigits((f + Repeat('0', d))[..d])
  {}

  lemma PageSum(w: string, padded: string, d: nat)
    requires AllDigits(w) && w != "" && AllDigits(padded)
    ensures PageScaled(w, padded, d) == Some(Scaled(w, padded, d))
  {
    BigIntOfDigits(w);
    BigIntOfDigits(if padded == "" then "0" else padded);
    hide Value, Pow, BigIntOf;
  }

  lemma PageUnits(s: string, d: nat)
    requires IsDecimal(s)
    ensures ParseUnits(s, d) == Some(Scaled(DigitPrefix(s), (FractionDigits(s) + Repeat('0', d))[..d], d))
  {
    SplitDecimal(s);
    TrimDecimal(s);
    assert DigitPrefix(s) != "";
    hide Split, IsDecimal, Trim, FractionDigits, DigitPrefix, Scaled, PageScaled, AllDigits;
    CutDigits(FractionDigits(s), d);
    PageSum(DigitPrefix(s), (FractionDigits(s) + Repeat('0', d))[..d], d);
  }

  /** The page sends exactly the units the server expects, for every amount the server accepts. */
  lemma PageAgreesWithServer(s: string, d: nat)
    requires DecimalToUnits(s, d).Ok?
    ensures ParseUnits(s, d) == Some(DecimalToUnits(s, d).value)
  {
    AcceptedShape(s, d);
    hide Scaled, IsDecimal, DecimalToUnits, ParseUnits, FractionDigits, DigitPrefix;
    PageUnits(s, d);
    UnitsPadded(s, d);
    var f := FractionDigits(s);
    assert (f + Repeat('0', d))[..d] == PadEnd(f, d);
  }

  /**
   For any plain decimal the page sends the amount rounded down to a base unit, so it also pays
   for every amount with too many digits, which the server then refuses.
   */
  lemma PageTruncates(s: string, d: nat)
    requires IsDecimal(s)
    ensures ParseUnits(s, d).Some?
    ensures var n := ParseUnits(s, d).value as real; n <= Amount(s) * Power(10, d) < n + 1.0
    ensures |FractionDigits(s)| > d <==> DecimalToUnits(s, d).Err?
  {
    AcceptedShape(s, d);
    hide IsDecimal, ParseUnits, Value, DecimalToUnits, Pow, FractionDigits, DigitPrefix, Power;
    if |FractionDigits(s)| <= d {
      hide Amount;
      UnitsExact(s, d);
      PageAgreesWithServer(s, d);
    } else {
      PageCuts(s, d);
      Truncation(DigitPrefix(s), FractionDigits(s), d);
    }
  }

  lemma PageCuts(s: string, d: nat)
    requires IsDecimal(s) && |FractionDigits(s)| > d
    ensures AllDigits(FractionDigits(s))
    ensures ParseUnits(s, d) == Some(Value(DigitPrefix(s) + FractionDigits(s)[..d], 10))
  {
    hide IsDecimal, ParseUnits, Value, Pow, FractionDigits, DigitPrefix, Split, Trim;
    PageUnits(s, d);
    SplitDecimal(s);
    var w, f := DigitPrefix(s), FractionDigits(s);
    assert (f + Repeat('0', d))[..d] == f[..d];
    ScaledPlain(w, f[..d], d);
    ValueAppend(w, f[..d], 10);
    hide Scaled;
  }

  /** The digits beyond the d-th are worth less than one unit. */
  lemma Truncation(w: string, f: string, d: nat)
    requires AllDigits(f) && |f| > d
    ensures var n := Value(w + f[..d], 10) as real;
            n <= ((Value(w + f, 10) as real) / Power(10, |f|)) * Power(10, d) < n + 1.0
  {
    hide Value, Pow;
    var kept, cut := f[..d], f[d..];
    assert w + f == (w + kept) + cut;
    ValueAppend(w + kept, cut, 10);
    ValueBound(cut);
    PowerAdd(10, d, |f| - d);
    AsReal(Value(w + kept, 10), Pow(10, |cut|), Value(cut, 10));
    var n, r, p, q := Value(w + kept, 10) as real, Value(cut, 10) as real, Power(10, d), Power(10, |cut|);
    assert Value(w + f, 10) as real == n * q + r && Power(10, |f|) == p * q && r < q;
    hide Power;
    FloorOfQuotient(n, r, p, q);
  }

  lemma AsReal(a: int, b: int, c: int)
    ensures (a * b + c) as real == a as real * b as real + c as real
  {}

  lemma FloorOfQuotient(n: real, r: real, p: real, q: real)
    requires p > 0.0 && q > 0.0 && 0.0 <= r < q
    ensures p * q > 0.0
    ensures n <= ((n * q + r) / (p * q)) * p < n + 1.0
  {
    assert p * q > 0.0;
    var v := n * q + r;
    var u := (v / (p * q)) * p;
    Associate(v / (p * q), p, q);
    assert u * q == v;
    if u < n {
      Less(u, n, q);
    } else if u >= n + 1.0 {
      assert (n + 1.0) * q == n * q + q;
      if u > n + 1.0 {
        Less(n + 1.0, u, q);
      }
    }
  }

  /** The page also reads a point with no digits before or after it. */
  lemma PageReadsBarePoint(w: string, f: string, d: nat)
    requires AllDigits(w) && AllDigits(f)
    ensures ParseUnits(w + "." + f, d) == Some(Value(w, 10) * Pow(10, d) + Value((f + Repeat('0', d))[..d], 10))
  {
    hide Split, Trim, IsDecimal, PageScaled, Value, Pow;
    BarePointPieces(w, f);
    CutDigits(f, d);
    hide AllDigits, Repeat;
    PageReadsParts(w, (f + Repeat('0', d))[..d], d);
  }

  /** Which the server refuses. */
  lemma ServerRefusesBarePoint(w: string, f: string, d: nat)
    requires AllDigits(w) && AllDigits(f) && (w == "" || f == "")
    ensures DecimalToUnits(w + "." + f, d) == Err(InvalidAmount)
  {
    hide Split, Trim, IsDecimal, Scaled;
    BarePointPieces(w, f);
  }

  /** Either part may be empty, and then counts as zero. */
  lemma PageReadsParts(w: string, padded: string, d: nat)
    requires AllDigits(w) && AllDigits(padded)
    ensures PageScaled(w, padded, d) == Some(Value(w, 10) * Pow(10, d) + Value(padded, 10))
  {
    hide PageScaled, Scaled, Value, Pow, AllDigits;
    ZeroValue();
    var whole := if w == "" then "0" else w;
    WholeOrZero(w, padded, d);
    PageSum(whole, padded, d);
    ScaledPlain(whole, padded, d);
  }

  lemma WholeOrZero(w: string, padded: string, d: nat)
    requires AllDigits(w)
    ensures var whole := if w == "" then "0" else w;
            whole != "" && AllDigits(whole) && PageScaled(w, padded, d) == PageScaled(whole, padded, d)
  {
    hide BigIntOf, Pow;
  }

  lemma ZeroValue()
    ensures Value("0", 10) == Value("", 10) == 0
  {
    assert "0"[..0] == "";
  }

  lemma BarePointPieces(w: string, f: string)
    requires AllDigits(w) && AllDigits(f)
    ensures var s := w + "." + f; Trim(s) == s && Split(s, ".") == [w, f]
    ensures w == "" || f == "" ==> !IsDecimal(w + "." + f)
  {
    var s := w + "." + f;
    assert s[|w|] == '.' && s[..|w|] == w && s[|w| + 1..] == f;
    BarePointTrim(w, f);
    if w == "" || f == "" {
      BarePointRefused(w, f);
    }
    hide IsDecimal, Trim;
    NoPoint(f);
    SplitAt(s, |w|);
    hide Split;
  }

  lemma BarePointTrim(w: string, f: string)
    requires AllDigits(w) && AllDigits(f)
    ensures Trim(w + "." + f) == w + "." + f
  {
    var s := w + "." + f;
    assert !IsSpace(s[0]) && !IsSpace(s[|s| - 1]);
    assert TrimStart(s) == s && TrimEnd(s) == s;
  }

  lemma BarePointRefused(w: string, f: string)
    requires AllDigits(w) && AllDigits(f) && (w == "" || f == "")
    ensures !IsDecimal(w + "." + f)
  {
    var s := w + "." + f;
    DigitPrefixStops(w, "." + f);
    assert w + ("." + f) == s && s[|w| + 1..] == f;
    hide DigitPrefix;
  }

  lemma {:induction false} DigitPrefixStops(w: string, t: string)
    requires AllDigits(w) && (t == "" || !IsDigit(t[0]))
    ensures DigitPrefix(w + t) == w
  {
    if w == "" {
      assert w + t == t;
    } else {
      assert (w + t)[0] == w[0] && (w + t)[1..] == w[1..] + t;
      DigitPrefixStops(w[1..], t);
    }
  }

  // ---- words ----

  lemma {:induction false} DigitsLength(n: nat, base: nat, k: nat)
    requires 2 <= base <= 16 && k >= 1
    ensures |Digits(n, base)| <= k <==> n < Pow(base, k)
    decreases k
  {
    Division(n, base);
    if n < base {
      PowPositive(base, k - 1);
      assert base * Pow(base, k - 1) >= base;
    } else if k == 1 {
      assert Pow(base, 1) == base * Pow(base, 0) == base;
    } else {
      DigitsLength(n / base, base, k - 1);
      QuotientBelow(n, base, Pow(base, k - 1));
    }
  }

  lemma QuotientBelow(n: nat, base: nat, p: nat)
    requires base >= 2
    ensures n / base < p <==> n < base * p
  {
    Division(n, base);
    var q, r := n / base, n % base;
    if q < p {
      Monotone(q + 1, p, base);
    } else {
      Monotone(p, q, base);
    }
  }

  lemma Monotone(a: nat, b: nat, c: nat)
    requires a <= b
    ensures a * c <= b * c
  {}

  lemma PaddedNumeral(s: string, k: nat)
    requires AllHex(s)
    ensures AllHex(PadStart(s, k)) && Value(PadStart(s, k), 16) == Value(s, 16)
    ensures |PadStart(s, k)| == if |s| >= k then |s| else k
  {
    if |s| < k {
      ValueAppend(Repeat('0', k - |s|), s, 16);
      ValueOfZeros(k - |s|, 16);
    }
  }

  /** The amount word always reads back, and is one 32-byte word exactly when the units are below 2^256. */
  lemma AmountWordReadsBack(n: nat)
    ensures ParseHexQuantity("0x" + AmountWord(n)) == Ok(n)
    ensures |AmountWord(n)| == 64 <==> n < Pow(16, 64)
  {
    ValueOfDigits(n, 16);
    DigitsLength(n, 16, 64);
    PaddedNumeral(Digits(n, 16), 64);
    var word := "0x" + AmountWord(n);
    assert word[2..] == AmountWord(n);
    hide Digits, Value, Pow, PadStart;
  }

  /** The word of an address is one 32-byte word, and read as a topic it is the address in lower case. */
  lemma AddressWordReadsBack(address: string)
    requires IsEvmAddress(address)
    ensures NormalizeAddress(address) == Ok(Lower(address))
    ensures |AddressWord(address)| == 64
    ensures TopicAddress("0x" + AddressWord(address)) == Ok(Lower(address))
  {
    var lower := Lower(address);
    assert forall i :: 2 <= i < |address| ==> address[2..][i - 2] == address[i];
    assert lower[0..2] == "0x";
    var word := "0x" + AddressWord(address);
    assert AddressWord(address) == Repeat('0', 24) + lower[2..];
    assert Lower(word) == word;
    assert word[|word| - 40..] == lower[2..];
    assert "0x" + lower[2..] == lower;
  }

  /** A chain id answered as a hexadecimal quantity is read as that number. */
  lemma ChainIdReadsBack(n: nat)
    ensures ParseIntHex("0x" + Digits(n, 16)) == Some(n)
  {
    ValueOfDigits(n, 16);
    HexPrefixOfHex(Digits(n, 16));
    hide Digits, Value, HexPrefix;
    var u := "0x" + Digits(n, 16);
    assert TrimStart(u) == u && u[2..] == Digits(n, 16);
  }

  lemma {:induction false} HexPrefixOfHex(s: string)
    requires AllHex(s)
    ensures HexPrefix(s) == s
  {
    if s != "" {
      HexPrefixOfHex(s[1..]);
    }
  }

  // ---- what verification proves ----

  /** The log is a Transfer event of EIP-20, of the token, from, to and value expected. */
  predicate IsTransfer(log: EvmLog, x: Expected) {
    && Lower(log.address) == x.token
    && |log.topics| >= 3
    && Lower(log.topics[0]) == ERC20_TRANSFER_TOPIC
    && TopicAddress(log.topics[1]) == Ok(x.sender)
    && TopicAddress(log.topics[2]) == Ok(x.recipient)
    && ParseHexQuantity(log.data) == Ok(x.units)
  }

  /** The topic is a 32-byte word whose last twenty bytes are another address. */
  predicate OtherAddress(topic: string, address: string) {
    TopicAddress(topic).Ok? && TopicAddress(topic) != Ok(address)
  }

  /**
   The log is not the expected Transfer, and can be read far enough to tell: it is of another
   contract or another event, or reading on, its sender, its recipient or its value is another.
   */
  predicate ReadableOther(log: EvmLog, x: Expected) {
    || Lower(log.address) != x.token
    || |log.topics| == 0 || Lower(log.topics[0]) != ERC20_TRANSFER_TOPIC
    || (|log.topics| > 1 && OtherAddress(log.topics[1], x.sender))
    || (|log.topics| > 2 && TopicAddress(log.topics[1]) == Ok(x.sender) && OtherAddress(log.topics[2], x.recipient))
    || (|log.topics| > 2 && TopicAddress(log.topics[1]) == Ok(x.sender) && TopicAddress(log.topics[2]) == Ok(x.recipient)
        && ParseHexQuantity(log.data).Ok? && ParseHexQuantity(log.data) != Ok(x.units))
  }

  /** The callback throws on the rest, with what it could not read. */
  function Unreadable(log: EvmLog, x: Expected): Failure {
    if |log.topics| < 2 || TopicAddress(log.topics[1]).Err? || |log.topics| < 3 || TopicAddress(log.topics[2]).Err?
    then InvalidTopic else InvalidQuantity
  }

  lemma MatchIsTransfer(log: EvmLog, x: Expected)
    ensures MatchLog(log, x) == Ok(true) <==> IsTransfer(log, x)
    ensures MatchLog(log, x) == Ok(false) <==> ReadableOther(log, x)
    ensures MatchLog(log, x).Err? ==> MatchLog(log, x).error == Unreadable(log, x)
  {
    assert TopicAddress("").Err? && Lower("") != ERC20_TRANSFER_TOPIC;
    assert forall topic: string :: TopicAddress(topic).Err? ==> TopicAddress(topic).error == InvalidTopic;
    hide TopicAddress, Lower;
  }

  lemma {:induction false} FindLogFirst(logs: seq<EvmLog>, x: Expected, i: nat, k: nat)
    requires i <= |logs|
    ensures FindLog(logs, x, i) == Ok(Some(k)) <==>
            i <= k < |logs| && IsTransfer(logs[k], x) && forall j :: i <= j < k ==> ReadableOther(logs[j], x)
    decreases |logs| - i
  {
    hide MatchLog, IsTransfer, ReadableOther;
    if i < |logs| {
      MatchIsTransfer(logs[i], x);
      FindLogFirst(logs, x, i + 1, k);
    }
  }

  /** The claim's addresses and amount, read by the rules of the verifier. */
  predicate Reads(c: Claim, x: Expected) {
    && NormalizeAddress(c.tokenAddress) == Ok(x.token)
    && NormalizeAddress(c.sender) == Ok(x.sender)
    && NormalizeAddress(c.recipient) == Ok(x.recipient)
    && Units(c.amount) == Ok(x.units)
  }

  /** The chain the claim names holds the transaction, and it succeeded and is in a block. */
  predicate Included(chain: Chain, c: Claim, r: Receipt) {
    && chain.chainId.Ok? && ParseIntHex(chain.chainId.value) == Some(c.chainId)
    && chain.receipt(c.txHash) == Ok(Some(r))
    && Lower(r.transactionHash) == Lower(c.txHash)
    && r.status.Some? && Lower(r.status.value) == "0x1"
    && r.blockNumber.Some? && r.blockNumber.value != ""
    && r.logs.Some?
  }

  /** The receipt's first expected Transfer is log `k`, and every log before it could be read. */
  predicate FirstTransfer(r: Receipt, x: Expected, k: nat) {
    && r.logs.Some? && k < |r.logs.value|
    && IsTransfer(r.logs.value[k], x)
    && forall j :: 0 <= j < k ==> ReadableOther(r.logs.value[j], x)
  }

  ghost predicate Paid(chain: Chain, c: Claim, k: nat) {
    exists r: Receipt, x: Expected :: Included(chain, c, r) && Reads(c, x) && FirstTransfer(r, x, k)
  }

  lemma ExpectedReads(c: Claim, x: Expected)
    ensures ExpectedOf(c) == Ok(x) <==> Reads(c, x)
  {
    hide NormalizeAddress, Units;
  }

  /**
   Verification succeeds exactly on a payment that was made: a successful, included transaction
   of the claim's chain and hash, whose log at the returned index is a Transfer of the claimed
   token, parties and units, with no unreadable Transfer of that token before it.
   */
  lemma VerifyMeansPaid(chain: Chain, c: Claim, now: int, k: nat)
    ensures Verify(chain, c, now) == Ok(Verification(now, c.chainId, c.txHash, k)) <==> Paid(chain, c, k)
    ensures Verify(chain, c, now).Ok? ==>
              Verify(chain, c, now).value == Verification(now, c.chainId, c.txHash, Verify(chain, c, now).value.logIndex)
  {
    hide ParseIntHex, Lower, FindLog, ExpectedOf, Reads, IsTransfer, ReadableOther;
    if chain.receipt(c.txHash).Ok? && chain.receipt(c.txHash).value.Some? {
      var r := chain.receipt(c.txHash).value.value;
      SearchMeansFirst(r, c, k);
      CheckReceiptMeans(r, c);
      assert chain.receipt(c.txHash) == Ok(Some(r));
      hide SearchReceipt, FirstTransfer;
      if Verify(chain, c, now) == Ok(Verification(now, c.chainId, c.txHash, k)) {
        assert SearchReceipt(r, c) == Ok(k);
      }
    }
  }

  lemma CheckReceiptMeans(r: Receipt, c: Claim)
    ensures CheckReceipt(r, c).Ok? <==>
            && Lower(r.transactionHash) == Lower(c.txHash)
            && r.status.Some? && Lower(r.status.value) == "0x1"
            && r.blockNumber.Some? && r.blockNumber.value != "" && r.logs.Some?
    ensures CheckReceipt(r, c).Ok? ==> r.logs == Some(CheckReceipt(r, c).value)
  {
    assert Lower("") != "0x1";
    hide Lower;
  }

  lemma SearchMeansFirst(r: Receipt, c: Claim, k: nat)
    ensures SearchReceipt(r, c) == Ok(k) <==>
            CheckReceipt(r, c).Ok? && exists x: Expected :: Reads(c, x) && FirstTransfer(r, x, k)
  {
    hide Reads, ExpectedOf, IsTransfer, ReadableOther, FindLog, CheckReceipt;
    CheckReceiptMeans(r, c);
    hide Lower;
    if ExpectedOf(c).Ok? && r.logs.Some? {
      ExpectedReads(c, ExpectedOf(c).value);
      FindLogFirst(r.logs.value, ExpectedOf(c).value, 0, k);
    }
    forall x: Expected | Reads(c, x)
      ensures ExpectedOf(c) == Ok(x)
    {
      ExpectedReads(c, x);
    }
  }

  /** Nothing is found exactly when every log is readably another; it throws exactly at a first log that is neither. */
  lemma {:induction false} FindLogFails(logs: seq<EvmLog>, x: Expected, i: nat)
    requires i <= |logs|
    ensures FindLog(logs, x, i) == Ok(None) <==> forall j :: i <= j < |logs| ==> ReadableOther(logs[j], x)
    ensures FindLog(logs, x, i).Err? ==>
              exists k :: i <= k < |logs| && !IsTransfer(logs[k], x) && !ReadableOther(logs[k], x)
                          && FindLog(logs, x, i) == Err(Unreadable(logs[k], x))
                          && forall j :: i <= j < k ==> ReadableOther(logs[j], x)
    decreases |logs| - i
  {
    hide MatchLog, IsTransfer, ReadableOther, Unreadable;
    if i < |logs| {
      MatchIsTransfer(logs[i], x);
      FindLogFails(logs, x, i + 1);
    }
  }

  /** Why verification of a claim is refused before its receipt is searched, in the order of the checks. */
  lemma VerifyRefuses(chain: Chain, c: Claim, now: int)
    ensures chain.chainId.Err? ==> Verify(chain, c, now) == Err(chain.chainId.error)
    ensures chain.chainId.Ok? && ParseIntHex(chain.chainId.value) != Some(c.chainId) ==> Verify(chain, c, now) == Err(ChainMismatch)
    ensures chain.chainId.Ok? && ParseIntHex(chain.chainId.value) == Some(c.chainId) ==>
              var found := chain.receipt(c.txHash);
              && (found.Err? ==> Verify(chain, c, now) == Err(found.error))
              && (found == Ok(None) ==> Verify(chain, c, now) == Err(ReceiptNotFound))
              && (found.Ok? && found.value.Some? ==>
                    var r := found.value.value;
                    if Lower(r.transactionHash) != Lower(c.txHash) then Verify(chain, c, now) == Err(HashMismatch)
                    else if r.status.None? || Lower(r.status.value) != "0x1" then Verify(chain, c, now) == Err(NotSuccessful)
                    else if r.blockNumber == None || r.blockNumber == Some("") then Verify(chain, c, now) == Err(NotIncluded)
                    else r.logs == None ==> Verify(chain, c, now) == Err(LogsMissing))
  {
    assert Lower("") != "0x1";
    hide Lower, ParseIntHex, ExpectedOf, FindLog;
  }

  // ---- the page's payment verifies ----

  /** What a token contract logs for the call data: the event's topic, the sender, and the call's two argument words. */
  function TransferLog(token: string, event: string, sender: string, callData: string): EvmLog
    requires |callData| == 138
  {
    EvmLog(token, [event, "0x" + AddressWord(sender), "0x" + callData[10..74]], "0x" + callData[74..])
  }

  /**
   The page's encoding and the verifier's decoding agree end to end: for addresses and an amount
   the server accepts, the call data is a selector and two words exactly when the units are below
   2^256, and then the log it causes is the one the verifier looks for.
   */
  lemma PagePaymentVerifies(c: Claim, event: string)
    requires IsEvmAddress(c.sender) && IsEvmAddress(c.recipient) && IsEvmAddress(c.tokenAddress)
    requires Units(c.amount).Ok?
    ensures ParseUnits(c.amount, 6) == Some(Units(c.amount).value) && ExpectedOf(c).Ok?
    ensures var callData := EncodeErc20Transfer(c.recipient, ParseUnits(c.amount, 6).value);
            && |callData| >= 10 && callData[..10] == "0xa9059cbb"
            && (|callData| == 138 <==> Units(c.amount).value < Pow(16, 64))
            && (|callData| == 138 && Lower(event) == ERC20_TRANSFER_TOPIC ==>
                  IsTransfer(TransferLog(c.tokenAddress, event, c.sender, callData), ExpectedOf(c).value))
  {
    PageAgreesWithServer(c.amount, 6);
    var units := Units(c.amount).value;
    AmountWordReadsBack(units);
    AddressWordReadsBack(c.recipient);
    AddressWordReadsBack(c.sender);
    AddressWordReadsBack(c.tokenAddress);
    hide AddressWord, AmountWord, TopicAddress, ParseHexQuantity, NormalizeAddress, Lower, Pow, IsEvmAddress, ParseUnits,
         DecimalToUnits, EncodeErc20Transfer;
    CallDataPieces(c.recipient, units);
  }

  lemma CallDataPieces(recipient: string, units: nat)
    requires |AddressWord(recipient)| == 64
    ensures var callData := EncodeErc20Transfer(recipient, units);
            && |callData| == 74 + |AmountWord(units)|
            && callData[..10] == "0xa9059cbb"
            && callData[10..74] == AddressWord(recipient) && callData[74..] == AmountWord(units)
  {
    hide AddressWord, AmountWord;
    assert "0x" + TRANSFER_SELECTOR == "0xa9059cbb";
    var callData := EncodeErc20Transfer(recipient, units);
    assert callData == ("0x" + TRANSFER_SELECTOR) + (AddressWord(recipient) + AmountWord(units));
  }
}
