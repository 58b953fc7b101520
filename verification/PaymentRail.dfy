/**
 The payment rail: wallet confirmations, the index of the transactions they use, persistence,
 and the execute route.

 The confirmations are a map in insertion order, one per action. What the agent wallet answers
 and what time it is come with each request; the verifier's chain is fixed.
 */
module PaymentRail {
  import opened Prelude
  import opened Text
  import OrderedMap
  import opened OnchainVerifier

  /** A wallet payment as posted to the confirm route or returned by the agent wallet. */
  datatype Execution = Execution(
    actionRef: string, txHash: string, sender: string, recipient: string, tokenAddress: string,
    amount: string, asset: string, chain: string, chainId: int,
    confirmedAt: Option<int>, verification: Option<Verification>)

  datatype Confirmation = Confirmation(
    actionRef: string, txHash: string, sender: string, recipient: string, tokenAddress: string,
    amount: string, asset: string, chain: string, chainId: int,
    confirmedAt: int, verification: Option<Verification>)

  datatype Intent = Intent(
    intentId: string, asset: string, amount: string, chain: string, accountId: string, settlementAddress: Option<string>)

  datatype Settlement = Settlement(
    settlementId: string, actionRef: string, decisionRef: string, sourceAccountRef: string, settlementAddress: string,
    asset: string, amount: string, chain: string, txHash: string, executedAt: int, settledAt: int)

  datatype Config = Config(
    requireWalletConfirmation: bool, verifier: Option<Chain>, hasExecutor: bool, persistent: bool)

  datatype State = State(
    attempts: nat, failuresRemaining: nat,
    confirmations: seq<Confirmation>, txHashes: map<string, string>, file: Option<seq<Confirmation>>)

  // ---- the two maps ----

  function ActionOf(c: Confirmation): string { c.actionRef }

  function Put(confirmations: seq<Confirmation>, c: Confirmation): seq<Confirmation> {
    OrderedMap.Put(confirmations, ActionOf, c)
  }

  function Get(confirmations: seq<Confirmation>, actionRef: string): Option<Confirmation> {
    OrderedMap.Get(confirmations, ActionOf, actionRef)
  }

  function Key(c: Confirmation): string { Lower(c.txHash) }

  /** The action a transaction is registered for, as the source reads it: "" counts as none. */
  function RegisteredFor(st: State, txHash: string): Option<string> {
    var key := Lower(txHash);
    if key in st.txHashes && st.txHashes[key] != "" then Some(st.txHashes[key]) else None
  }

  predicate IsReplay(st: State, e: Execution) {
    var existing := RegisteredFor(st, e.txHash);
    existing.Some? && existing.value != e.actionRef
  }

  function Complete(e: Execution, now: int): Confirmation {
    Confirmation(e.actionRef, e.txHash, e.sender, e.recipient, e.tokenAddress, e.amount, e.asset, e.chain, e.chainId,
                 if e.confirmedAt.Some? then e.confirmedAt.value else now, e.verification)
  }

  function ClaimOf(c: Confirmation): Claim {
    Claim(c.txHash, c.sender, c.recipient, c.tokenAddress, c.amount, c.chainId)
  }

  /** The confirmation with what the verifier says of it, if there is one. */
  function Verified(config: Config, c: Confirmation, now: int): Result<Confirmation, Failure> {
    if config.verifier.None? then Ok(c)
    else match Verify(config.verifier.value, ClaimOf(c), now)
      case Err(e) => Err(e)
      case Ok(v) => Ok(c.(verification := Some(v)))
  }

  function Register(config: Config, st: State, c: Confirmation): State {
    var confirmations := Put(st.confirmations, c);
    st.(confirmations := confirmations,
        txHashes := st.txHashes[Key(c) := c.actionRef],
        file := if config.persistent then Some(confirmations) else st.file)
  }

  // ---- starting from a file ----

  /** `new Map(...)` of the stored list: a later entry replaces an earlier one of its action. */
  function Load(stored: seq<Confirmation>): seq<Confirmation> {
    if stored == [] then [] else Put(Load(stored[..|stored| - 1]), stored[|stored| - 1])
  }

  function Rebuild(confirmations: seq<Confirmation>): map<string, string> {
    if confirmations == [] then map[]
    else
      var last := confirmations[|confirmations| - 1];
      Rebuild(confirmations[..|confirmations| - 1])[Key(last) := last.actionRef]
  }

  function Started(config: Config, file: Option<seq<Confirmation>>, failures: nat): State {
    var confirmations := if config.persistent && file.Some? then Load(file.value) else [];
    State(0, failures, confirmations, Rebuild(confirmations), file)
  }

  // ---- the confirm route ----

  datatype ConfirmReply = Confirmed(confirmation: Confirmation) | Replay(existing: string) | VerificationFailed(failure: Failure)

  function Confirm(config: Config, st: State, input: Execution, now: int): (State, ConfirmReply) {
    if IsReplay(st, input) then (st, Replay(RegisteredFor(st, input.txHash).value))
    else match Verified(config, Complete(input, now), now)
      case Err(e) => (st, VerificationFailed(e))
      case Ok(c) => (Register(config, st, c), Confirmed(c))
  }

  // ---- the execute route ----

  datatype Mismatch =
    | WrongAction | WrongAsset | WrongChain | BadAmount(failure: Failure) | WrongAmount | WrongRecipient
    | NoWallet | Replayed | NotVerified(failure: Failure) | NoSettlement

  /** A present, non-empty settlement address: the source tests truthiness. */
  predicate Directed(intent: Intent) {
    intent.settlementAddress.Some? && intent.settlementAddress.value != ""
  }

  /** None when the confirmation matches; the source throws otherwise. */
  function MatchIntent(c: Confirmation, intent: Intent): Option<Mismatch> {
    if c.actionRef != intent.intentId then Some(WrongAction)
    else if c.asset != intent.asset then Some(WrongAsset)
    else if c.chain != intent.chain then Some(WrongChain)
    else if Units(c.amount).Err? then Some(BadAmount(Units(c.amount).error))
    else if Units(intent.amount).Err? then Some(BadAmount(Units(intent.amount).error))
    else if Units(c.amount) != Units(intent.amount) then Some(WrongAmount)
    else if Directed(intent) && Lower(c.recipient) != Lower(intent.settlementAddress.value) then Some(WrongRecipient)
    else None
  }

  /** The checks on what the wallet returned (None when it threw or returned no execution), before any await. */
  function CheckPayment(st: State, intent: Intent, answer: Option<Execution>, now: int): Result<Confirmation, Mismatch> {
    if answer.None? then Err(NoWallet)
    else if IsReplay(st, answer.value) then Err(Replayed)
    else
      var c := Complete(answer.value, now);
      var mismatch := MatchIntent(c, intent);
      if mismatch.Some? then Err(mismatch.value) else Ok(c)
  }

  /** `executeAgentWalletPayment` once the wallet has answered. */
  function PayFromAgentWallet(config: Config, st: State, intent: Intent, answer: Option<Execution>, now: int)
    : (State, Result<Confirmation, Mismatch>)
  {
    match CheckPayment(st, intent, answer, now)
    case Err(e) => (st, Err(e))
    case Ok(c) =>
      match Verified(config, c, now)
      case Err(e) => (st, Err(NotVerified(e)))
      case Ok(verified) => (Register(config, st, verified), Ok(verified))
  }

  function WalletSettlement(intent: Intent, decisionId: string, c: Confirmation): Settlement {
    Settlement("stl-wallet-" + intent.intentId, intent.intentId, decisionId, intent.accountId, c.recipient,
               c.asset, c.amount, c.chain, c.txHash, c.confirmedAt, c.confirmedAt)
  }

  datatype ExecuteReply =
    | Settled(settlement: Settlement) | Seeded | Unavailable | NotConfirmed | Failed(error: Mismatch)

  function Settle(config: Config, intent: Intent, decisionId: string, found: Option<Confirmation>, seeded: bool): ExecuteReply {
    match found
    case None =>
      if config.requireWalletConfirmation then NotConfirmed else if seeded then Seeded else Failed(NoSettlement)
    case Some(c) =>
      var mismatch := MatchIntent(c, intent);
      if mismatch.Some? then Failed(mismatch.value) else Settled(WalletSettlement(intent, decisionId, c))
  }

  /** The execute route up to the call of the agent wallet: answered at once, or waiting for the wallet. */
  datatype Begun = Answered(reply: ExecuteReply) | AwaitsWallet

  /** `seeded` tells whether the built-in adapter settles when there is no wallet payment. */
  function BeginExecute(config: Config, st: State, intent: Intent, decisionId: string, seeded: bool): (State, Begun) {
    var counted := st.(attempts := st.attempts + 1);
    if st.failuresRemaining > 0 then
      (counted.(failuresRemaining := st.failuresRemaining - 1), Answered(Unavailable))
    else
      var found := Get(st.confirmations, intent.intentId);
      if found.None? && config.hasExecutor then (counted, AwaitsWallet)
      else (counted, Answered(Settle(config, intent, decisionId, found, seeded)))
  }

  /** The rest of it, once the wallet has answered. */
  function ResumeExecute(config: Config, st: State, intent: Intent, decisionId: string, answer: Option<Execution>, now: int)
    : (State, ExecuteReply)
  {
    var (paid, confirmation) := PayFromAgentWallet(config, st, intent, answer, now);
    match confirmation
    case Err(e) => (paid, Failed(e))
    case Ok(c) => (paid, Settle(config, intent, decisionId, Some(c), false))
  }

  /** The route with nothing else happening while it waits. */
  function Execute(config: Config, st: State, intent: Intent, decisionId: string,
                   answer: Option<Execution>, seeded: bool, now: int): (State, ExecuteReply)
  {
    var (begun, outcome) := BeginExecute(config, st, intent, decisionId, seeded);
    match outcome
    case Answered(reply) => (begun, reply)
    case AwaitsWallet => ResumeExecute(config, begun, intent, decisionId, answer, now)
  }

  // ---- the service, its maps updated in place ----

  class PaymentRailService {
    const config: Config
    var executePaymentAttempts: nat
    var executePaymentFailuresRemaining: nat
    var walletConfirmations: seq<Confirmation>
    var walletTxHashes: map<string, string>
    var file: Option<seq<Confirmation>>

    function View(): State
      reads this
    {
      State(executePaymentAttempts, executePaymentFailuresRemaining, walletConfirmations, walletTxHashes, file)
    }

    /** `createPaymentRailServiceState`, with the loops over the file and the loaded map. */
    constructor (config: Config, file: Option<seq<Confirmation>>, failures: int)
      ensures this.config == config && View() == Started(config, file, if failures < 0 then 0 else failures)
    {
      this.config, this.file := config, file;
      executePaymentAttempts, executePaymentFailuresRemaining := 0, if failures < 0 then 0 else failures;
      walletConfirmations, walletTxHashes := [], map[];
      new;
      if config.persistent && file.Some? {
        var stored := file.value;
        for i := 0 to |stored|
          invariant walletConfirmations == Load(stored[..i])
          invariant this.file == file && walletTxHashes == map[]
          invariant executePaymentAttempts == 0
          invariant executePaymentFailuresRemaining == if failures < 0 then 0 else failures
        {
          walletConfirmations := Put(walletConfirmations, stored[i]);
          assert stored[..i + 1][..i] == stored[..i];
        }
        assert stored[..|stored|] == stored;
      }
      var loaded := walletConfirmations;
      for i := 0 to |loaded|
        invariant walletTxHashes == Rebuild(loaded[..i])
        invariant this.file == file && executePaymentAttempts == 0 && walletConfirmations == loaded
        invariant executePaymentFailuresRemaining == if failures < 0 then 0 else failures
      {
        walletTxHashes := walletTxHashes[Key(loaded[i]) := loaded[i].actionRef];
        assert loaded[..i + 1][..i] == loaded[..i];
      }
      assert loaded[..|loaded|] == loaded;
    }

    method PersistWalletConfirmations()
      modifies this`file
      ensures file == if config.persistent then Some(walletConfirmations) else old(file)
    {
      if !config.persistent {
        return;
      }
      file := Some(walletConfirmations);
    }

    /** The writes that end a confirmed payment, from either route. */
    method RegisterConfirmation(c: Confirmation)
      modifies this
      ensures View() == Register(config, old(View()), c)
    {
      walletConfirmations := Put(walletConfirmations, c);
      walletTxHashes := walletTxHashes[Key(c) := c.actionRef];
      PersistWalletConfirmations();
    }

    method ConfirmWalletPayment(input: Execution, now: int) returns (reply: ConfirmReply)
      modifies this
      ensures (View(), reply) == Confirm(config, old(View()), input, now)
    {
      var key := Lower(input.txHash);
      if key in walletTxHashes {
        var existing := walletTxHashes[key];
        if existing != "" && existing != input.actionRef {
          return Replay(existing);
        }
      }
      var confirmation := Complete(input, now);
      if config.verifier.Some? {
        var verification := Verify(config.verifier.value, ClaimOf(confirmation), now);
        if verification.Err? {
          return VerificationFailed(verification.error);
        }
        confirmation := confirmation.(verification := Some(verification.value));
      }
      RegisterConfirmation(confirmation);
      return Confirmed(confirmation);
    }

    method ExecuteAgentWalletPayment(intent: Intent, answer: Option<Execution>, now: int)
      returns (result: Result<Confirmation, Mismatch>)
      modifies this
      ensures (View(), result) == PayFromAgentWallet(config, old(View()), intent, answer, now)
    {
      if answer.None? {
        return Err(NoWallet);
      }
      var execution := answer.value;
      var key := Lower(execution.txHash);
      if key in walletTxHashes {
        var existing := walletTxHashes[key];
        if existing != "" && existing != execution.actionRef {
          return Err(Replayed);
        }
      }
      var confirmation := Complete(execution, now);
      var mismatch := MatchIntent(confirmation, intent);
      if mismatch.Some? {
        return Err(mismatch.value);
      }
      if config.verifier.Some? {
        var verification := Verify(config.verifier.value, ClaimOf(confirmation), now);
        if verification.Err? {
          return Err(NotVerified(verification.error));
        }
        confirmation := confirmation.(verification := Some(verification.value));
      }
      RegisterConfirmation(confirmation);
      return Ok(confirmation);
    }

    /** The execute route up to its call of the agent wallet. */
    method BeginExecution(intent: Intent, decisionId: string, seeded: bool) returns (begun: Begun)
      modifies this
      ensures (View(), begun) == BeginExecute(config, old(View()), intent, decisionId, seeded)
    {
      executePaymentAttempts := executePaymentAttempts + 1;
      if executePaymentFailuresRemaining > 0 {
        executePaymentFailuresRemaining := executePaymentFailuresRemaining - 1;
        return Answered(Unavailable);
      }
      var confirmation := Get(walletConfirmations, intent.intentId);
      if confirmation.None? && config.hasExecutor {
        return AwaitsWallet;
      }
      if config.requireWalletConfirmation && confirmation.None? {
        return Answered(NotConfirmed);
      }
      if confirmation.Some? {
        var mismatch := MatchIntent(confirmation.value, intent);
        if mismatch.Some? {
          return Answered(Failed(mismatch.value));
        }
        return Answered(Settled(WalletSettlement(intent, decisionId, confirmation.value)));
      }
      return Answered(if seeded then Seeded else Failed(NoSettlement));
    }

    /** What follows the wallet's answer, whatever happened meanwhile. */
    method ResumeExecution(intent: Intent, decisionId: string, answer: Option<Execution>, now: int) returns (reply: ExecuteReply)
      modifies this
      ensures (View(), reply) == ResumeExecute(config, old(View()), intent, decisionId, answer, now)
    {
      var paid := ExecuteAgentWalletPayment(intent, answer, now);
      if paid.Err? {
        return Failed(paid.error);
      }
      var mismatch := MatchIntent(paid.value, intent);
      if mismatch.Some? {
        return Failed(mismatch.value);
      }
      return Settled(WalletSettlement(intent, decisionId, paid.value));
    }

    /** The whole route, with nothing else happening while the wallet pays. */
    method ExecutePayment(intent: Intent, decisionId: string, answer: Option<Execution>, seeded: bool, now: int)
      returns (reply: ExecuteReply)
      modifies this
      ensures (View(), reply) == Execute(config, old(View()), intent, decisionId, answer, seeded, now)
    {
      var begun := BeginExecution(intent, decisionId, seeded);
      if begun.Answered? {
        return begun.reply;
      }
      reply := ResumeExecution(intent, decisionId, answer, now);
    }
  }
}
