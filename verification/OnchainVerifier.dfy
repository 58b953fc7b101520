/**
 The on-chain verifier of the payment rail: decimal amounts in base units, hexadecimal words,
 and the search of a receipt for an ERC-20 Transfer.
 */
module OnchainVerifier {
  import opened Prelude
  import opened Text

  const ERC20_TRANSFER_TOPIC := "0xddf252ad1be2c89b69c2b068fc378daa952ba7f163c4a11628f55a4df523b3ef"
  const DEFAULT_USDC_DECIMALS := 6

  datatype Failure =
    | InvalidAddress | InvalidTopic | InvalidQuantity | InvalidAmount | TooManyDecimals
    | RpcFailed | ChainMismatch | ReceiptNotFound | HashMismatch | NotSuccessful | NotIncluded | LogsMissing | NoTransfer

  // ---- hexadecimal ----

  /** `/^0x[0-9a-f]{n}$/` on a lower-cased string. */
  predicate IsLowerHex(s: string, n: nat) {
    && |s| == n + 2 && s[0] == '0' && s[1] == 'x'
    && forall i :: 2 <= i < |s| ==> '0' <= s[i] <= '9' || 'a' <= s[i] <= 'f'
  }

  function NormalizeAddress(value: string): Result<string, Failure> {
    if IsLowerHex(Lower(value), 40) then Ok(Lower(value)) else Err(InvalidAddress)
  }

  function TopicAddress(topic: string): Result<string, Failure> {
    var normalized := Lower(topic);
    if !IsLowerHex(normalized, 64) then Err(InvalidTopic)
    else Ok("0x" + normalized[|normalized| - 40..])
  }

  function ParseHexQuantity(value: string): Result<nat, Failure> {
    if |value| >= 3 && value[0] == '0' && value[1] == 'x' && AllHex(value[2..]) then Ok(Value(value[2..], 16))
    else Err(InvalidQuantity)
  }

  function HexPrefix(s: string): (r: string)
    ensures AllHex(r) && r <= s
  {
    if s == "" || !IsHexDigit(s[0]) then "" else [s[0]] + HexPrefix(s[1..])
  }

  /** `Number.parseInt(s, 16)`, with None for NaN. */
  function ParseIntHex(s: string): Option<int> {
    var u := TrimStart(s);
    var negative := u != "" && u[0] == '-';
    var signless := if u != "" && (u[0] == '-' || u[0] == '+') then u[1..] else u;
    var body := if |signless| >= 2 && signless[0] == '0' && (signless[1] == 'x' || signless[1] == 'X')
                then signless[2..] else signless;
    var digits := HexPrefix(body);
    if digits == "" then None
    else if negative then Some(-(Value(digits, 16) as int)) else Some(Value(digits, 16))
  }

  // ---- decimal amounts ----

  /** What follows the point, or nothing. */
  function FractionDigits(s: string): string {
    var w := DigitPrefix(s);
    if |s| > |w| then s[|w| + 1..] else ""
  }

  /** `/^\d+(\.\d+)?$/`. */
  predicate IsDecimal(s: string) {
    var w := DigitPrefix(s);
    && w != ""
    && (|s| > |w| ==> s[|w|] == '.' && FractionDigits(s) != "" && AllDigits(FractionDigits(s)))
  }

  /** `s.padEnd(n, "0")`. */
  function PadEnd(s: string, n: nat): (r: string)
    ensures |s| <= n ==> |r| == n
  {
    if |s| >= n then s else s + Repeat('0', n - |s|)
  }

  /** `BigInt(whole) * 10n ** BigInt(decimals) + BigInt(fraction || "0")` on digits. */
  function Scaled(whole: string, fraction: string, decimals: nat): nat {
    Value(whole, 10) * Pow(10, decimals) + Value(if fraction == "" then "0" else fraction, 10)
  }

  function DecimalToUnits(value: string, decimals: nat): Result<nat, Failure> {
    if !IsDecimal(value) then Err(InvalidAmount)
    else
      var parts := Split(value, ".");
      var whole, fraction := parts[0], if |parts| > 1 then parts[1] else "";
      if |fraction| > decimals then Err(TooManyDecimals)
      else Ok(Scaled(whole, PadEnd(fraction, decimals), decimals))
  }

  function Units(value: string): Result<nat, Failure> {
    DecimalToUnits(value, DEFAULT_USDC_DECIMALS)
  }

  // ---- verification ----

  datatype EvmLog = EvmLog(address: string, topics: seq<string>, data: string)

  datatype Receipt = Receipt(
    transactionHash: string, status: Option<string>, blockNumber: Option<string>, logs: Option<seq<EvmLog>>)

  /** What the RPC node answers, as a fixed function of the request; Err when the call fails. */
  datatype Chain = Chain(chainId: Result<string, Failure>, receipt: string -> Result<Option<Receipt>, Failure>)

  /** The claim of a payment that is to be verified. */
  datatype Claim = Claim(
    txHash: string, sender: string, recipient: string, tokenAddress: string, amount: string, chainId: int)

  datatype Verification = Verification(verifiedAt: int, chainId: int, txHash: string, logIndex: nat)

  datatype Expected = Expected(token: string, sender: string, recipient: string, units: nat)

  function TopicAt(log: EvmLog, i: nat): string {
    if i < |log.topics| then log.topics[i] else ""
  }

  /** The callback of `findIndex`, which throws on a Transfer of the token it cannot read. */
  function MatchLog(log: EvmLog, x: Expected): Result<bool, Failure> {
    if Lower(log.address) != x.token then Ok(false)
    else if Lower(TopicAt(log, 0)) != ERC20_TRANSFER_TOPIC then Ok(false)
    else match TopicAddress(TopicAt(log, 1))
      case Err(e) => Err(e)
      case Ok(sender) =>
        if sender != x.sender then Ok(false)
        else match TopicAddress(TopicAt(log, 2))
          case Err(e) => Err(e)
          case Ok(recipient) =>
            if recipient != x.recipient then Ok(false)
            else match ParseHexQuantity(log.data)
              case Err(e) => Err(e)
              case Ok(units) => Ok(units == x.units)
  }

  /** `logs.findIndex(...)` from `i` on. */
  function FindLog(logs: seq<EvmLog>, x: Expected, i: nat): Result<Option<nat>, Failure>
    requires i <= |logs|
    decreases |logs| - i
  {
    if i == |logs| then Ok(None)
    else match MatchLog(logs[i], x)
      case Err(e) => Err(e)
      case Ok(found) => if found then Ok(Some(i)) else FindLog(logs, x, i + 1)
  }

  function ExpectedOf(c: Claim): Result<Expected, Failure> {
    match NormalizeAddress(c.tokenAddress)
    case Err(e) => Err(e)
    case Ok(token) => match NormalizeAddress(c.sender)
      case Err(e) => Err(e)
      case Ok(sender) => match NormalizeAddress(c.recipient)
        case Err(e) => Err(e)
        case Ok(recipient) => match Units(c.amount)
          case Err(e) => Err(e)
          case Ok(units) => Ok(Expected(token, sender, recipient, units))
  }

  /** The checks on the receipt before its logs are searched. */
  function CheckReceipt(r: Receipt, c: Claim): Result<seq<EvmLog>, Failure> {
    if Lower(r.transactionHash) != Lower(c.txHash) then Err(HashMismatch)
    else if Lower(if r.status.Some? then r.status.value else "") != "0x1" then Err(NotSuccessful)
    else if r.blockNumber.None? || r.blockNumber.value == "" then Err(NotIncluded)
    else if r.logs.None? then Err(LogsMissing)
    else Ok(r.logs.value)
  }

  function SearchReceipt(r: Receipt, c: Claim): Result<nat, Failure> {
    match CheckReceipt(r, c)
    case Err(e) => Err(e)
    case Ok(logs) => match ExpectedOf(c)
      case Err(e) => Err(e)
      case Ok(x) => match FindLog(logs, x, 0)
        case Err(e) => Err(e)
        case Ok(index) => if index.None? then Err(NoTransfer) else Ok(index.value)
  }

  /** `verify`, which throws where this returns Err. */
  function Verify(chain: Chain, c: Claim, now: int): Result<Verification, Failure> {
    match chain.chainId
    case Err(e) => Err(e)
    case Ok(id) =>
      if ParseIntHex(id) != Some(c.chainId) then Err(ChainMismatch)
      else match chain.receipt(c.txHash)
        case Err(e) => Err(e)
        case Ok(found) =>
          if found.None? then Err(ReceiptNotFound)
          else match SearchReceipt(found.value, c)
            case Err(e) => Err(e)
            case Ok(index) => Ok(Verification(now, c.chainId, c.txHash, index))
  }

  // ---- the page that makes the payment ----

  predicate AllBelow(s: string, base: nat) {
    forall i :: 0 <= i < |s| ==> IsHexDigit(s[i]) && DigitValue(s[i]) < base
  }

  /** `BigInt(s)`, with None where it throws: white space, a signed decimal, or 0x, 0o or 0b and digits. */
  function BigIntOf(s: string): Option<int> {
    var u := Trim(s);
    if u == "" then Some(0)
    else if AllDigits(u) then Some(Value(u, 10))
    else if (u[0] == '-' || u[0] == '+') && |u| > 1 && AllDigits(u[1..]) then
      Some(if u[0] == '-' then -(Value(u[1..], 10) as int) else Value(u[1..], 10))
    else if |u| > 2 && u[0] == '0' then
      var base := if u[1] == 'x' || u[1] == 'X' then 16 else if u[1] == 'o' || u[1] == 'O' then 8
                  else if u[1] == 'b' || u[1] == 'B' then 2 else 0;
      if AllBelow(u[2..], base) then Some(Value(u[2..], base)) else None
    else None
  }

  /** The page's `BigInt(whole || "0") * 10n ** BigInt(decimals) + BigInt(fraction || "0")`. */
  function PageScaled(whole: string, fraction: string, decimals: nat): Option<int> {
    var w, f := BigIntOf(if whole == "" then "0" else whole), BigIntOf(if fraction == "" then "0" else fraction);
    if w.None? || f.None? then None else Some(w.value * Pow(10, decimals) + f.value)
  }

  function ParseUnits(value: string, decimals: nat): Option<int> {
    var parts := Split(Trim(value), ".");
    var fraction := if |parts| > 1 then parts[1] else "";
    PageScaled(parts[0], (fraction + Repeat('0', decimals))[..decimals], decimals)
  }

  function PadStart(s: string, n: nat): string {
    if |s| >= n then s else Repeat('0', n - |s|) + s
  }

  function HexText(n: int): string {
    if n < 0 then "-" + Digits(-n, 16) else Digits(n, 16)
  }

  function AddressWord(address: string): string {
    var lower := Lower(address);
    PadStart(if StartsWith(lower, "0x") then lower[2..] else lower, 64)
  }

  function AmountWord(units: int): string {
    PadStart(HexText(units), 64)
  }

  const TRANSFER_SELECTOR := "a9059cbb"

  function EncodeErc20Transfer(recipient: string, units: int): string {
    "0x" + TRANSFER_SELECTOR + AddressWord(recipient) + AmountWord(units)
  }

  /** `isEvmAddress`: `/^0x[a-fA-F0-9]{40}$/`. */
  predicate IsEvmAddress(s: string) {
    |s| == 42 && s[0] == '0' && s[1] == 'x' && AllHex(s[2..])
  }
}
