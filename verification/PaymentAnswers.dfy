/** What every request to the payment rail is answered, and what it changes, from the request and the two maps. */
module PaymentAnswers {
  import opened Prelude
  import opened Text
  import OrderedMap
  import opened OnchainVerifier
  import opened OnchainVerifierProofs
  import opened PaymentRail
  import opened PaymentRailProofs

  // ---- replays and matches ----

  /** The transaction is indexed, in whatever case, to another action that has a name. */
  predicate UsedByAnother(st: State, txHash: string, actionRef: string) {
    Lower(txHash) in st.txHashes && st.txHashes[Lower(txHash)] != "" && st.txHashes[Lower(txHash)] != actionRef
  }

  /** A plain decimal with at most six digits after the point. */
  predicate IsUsdc(amount: string) {
    IsDecimal(amount) && |FractionDigits(amount)| <= 6
  }

  /** The confirmation is for the intent, in its asset, chain and amount, and to its settlement address when it has one. */
  predicate Pays(c: Confirmation, intent: Intent) {
    && c.actionRef == intent.intentId && c.asset == intent.asset && c.chain == intent.chain
    && IsUsdc(c.amount) && IsUsdc(intent.amount) && Amount(c.amount) == Amount(intent.amount)
    && (intent.settlementAddress.Some? && intent.settlementAddress.value != "" ==>
          Lower(c.recipient) == Lower(intent.settlementAddress.value))
  }

  lemma MatchMeans(c: Confirmation, intent: Intent)
    ensures MatchIntent(c, intent).None? <==> Pays(c, intent)
  {
    AcceptedShape(c.amount, 6);
    AcceptedShape(intent.amount, 6);
    hide DecimalToUnits, Lower, Amount, IsDecimal, FractionDigits;
    if Units(c.amount).Ok? && Units(intent.amount).Ok? {
      SameUnitsSameAmount(c.amount, intent.amount, 6);
    }
  }

  // ---- what is registered ----

  /** The confirmation is the payment as given, timed, with what the verifier says of it if there is one. */
  predicate ConfirmationOf(config: Config, c: Confirmation, e: Execution, now: int) {
    && c.actionRef == e.actionRef && c.txHash == e.txHash && c.sender == e.sender && c.recipient == e.recipient
    && c.tokenAddress == e.tokenAddress && c.amount == e.amount && c.asset == e.asset && c.chain == e.chain
    && c.chainId == e.chainId
    && c.confirmedAt == (match e.confirmedAt case Some(t) => t case None => now)
    && (match config.verifier
        case None => c.verification == e.verification
        case Some(chain) =>
          c.verification.Some? && Verify(chain, ClaimOfPayment(e), now) == Ok(c.verification.value))
  }

  function ClaimOfPayment(e: Execution): Claim {
    Claim(e.txHash, e.sender, e.recipient, e.tokenAddress, e.amount, e.chainId)
  }

  /** The verifier, if there is one, refuses the payment. */
  predicate Refused(config: Config, e: Execution, now: int) {
    config.verifier.Some? && Verify(config.verifier.value, ClaimOfPayment(e), now).Err?
  }

  /** The confirmation is stored for its action, indexed by its transaction and written to the file; all else stays. */
  ghost predicate Stored(config: Config, st: State, st': State, c: Confirmation) {
    && st'.attempts == st.attempts && st'.failuresRemaining == st.failuresRemaining
    && (forall a: string :: Get(st'.confirmations, a) == if a == c.actionRef then Some(c) else Get(st.confirmations, a))
    && st'.txHashes == st.txHashes[Lower(c.txHash) := c.actionRef]
    && st'.file == if config.persistent then Some(st'.confirmations) else st.file
  }

  lemma RegisterStores(config: Config, st: State, c: Confirmation)
    ensures Stored(config, st, Register(config, st, c), c)
  {
    forall a: string
      ensures Get(Put(st.confirmations, c), a) == if a == c.actionRef then Some(c) else Get(st.confirmations, a)
    {
      OrderedMap.PutGet(st.confirmations, ActionOf, c, a);
    }
    hide Put, Get, Lower;
  }

  lemma VerifiedIs(config: Config, e: Execution, now: int)
    ensures Verified(config, Complete(e, now), now).Err? <==> Refused(config, e, now)
    ensures Verified(config, Complete(e, now), now).Ok? ==> ConfirmationOf(config, Verified(config, Complete(e, now), now).value, e, now)
    ensures Refused(config, e, now) ==>
              Verified(config, Complete(e, now), now) == Err(Verify(config.verifier.value, ClaimOfPayment(e), now).error)
  {
    assert ClaimOf(Complete(e, now)) == ClaimOfPayment(e);
    hide Verify;
  }

  /**
   The confirm route: a transaction used by another action is a replay, a payment the verifier
   refuses fails with its reason, and any other is confirmed and stored.
   */
  lemma ConfirmAnswers(config: Config, st: State, input: Execution, now: int)
    ensures var (after, reply) := Confirm(config, st, input, now);
            if UsedByAnother(st, input.txHash, input.actionRef)
            then after == st && reply == Replay(st.txHashes[Lower(input.txHash)])
            else if Refused(config, input, now)
            then after == st && reply == VerificationFailed(Verify(config.verifier.value, ClaimOfPayment(input), now).error)
            else reply.Confirmed? && ConfirmationOf(config, reply.confirmation, input, now)
                 && Stored(config, st, after, reply.confirmation)
  {
    VerifiedIs(config, input, now);
    hide Verified, Refused, ConfirmationOf, Lower, Verify;
    if Verified(config, Complete(input, now), now).Ok? {
      RegisterStores(config, st, Verified(config, Complete(input, now), now).value);
    }
    hide Register, Stored;
  }

  // ---- settlements ----

  /** The settlement of a confirmation for an intent and a decision. */
  predicate SettlementOf(s: Settlement, intent: Intent, decisionId: string, c: Confirmation) {
    && s.settlementId == "stl-wallet-" + intent.intentId
    && s.actionRef == intent.intentId && s.decisionRef == decisionId && s.sourceAccountRef == intent.accountId
    && s.settlementAddress == c.recipient && s.asset == c.asset && s.amount == c.amount && s.chain == c.chain
    && s.txHash == c.txHash && s.executedAt == c.confirmedAt && s.settledAt == c.confirmedAt
  }

  /**
   The execute route up to the wallet: unavailable while failures remain; else the wallet is asked
   exactly for an intent without a confirmation when there is a wallet; else a confirmation that
   pays for the intent is settled and any other fails, and without one the adapter settles unless
   a confirmation is required.
   */
  lemma BeginAnswers(config: Config, st: State, intent: Intent, decisionId: string, seeded: bool)
    ensures var (after, begun) := BeginExecute(config, st, intent, decisionId, seeded);
            var found := Get(st.confirmations, intent.intentId);
            && after.attempts == st.attempts + 1
            && after.failuresRemaining == (if st.failuresRemaining > 0 then st.failuresRemaining - 1 else 0)
            && SameRegistry(st, after)
            && (begun == Answered(Unavailable) <==> st.failuresRemaining > 0)
            && (begun.AwaitsWallet? <==> st.failuresRemaining == 0 && found.None? && config.hasExecutor)
            && (st.failuresRemaining == 0 && found.Some? ==>
                  && begun.Answered?
                  && (begun.reply.Settled? <==> Pays(found.value, intent))
                  && (if begun.reply.Settled? then SettlementOf(begun.reply.settlement, intent, decisionId, found.value)
                      else begun.reply.Failed?))
            && (st.failuresRemaining == 0 && found.None? && !config.hasExecutor ==>
                  begun == Answered(if config.requireWalletConfirmation then NotConfirmed
                                    else if seeded then Seeded else Failed(NoSettlement)))
  {
    var found := Get(st.confirmations, intent.intentId);
    if found.Some? {
      MatchMeans(found.value, intent);
    }
    hide Get, MatchIntent, Pays;
  }

  /**
   And from the wallet's answer on: the intent is settled exactly when the wallet paid in a
   transaction of no other action, the payment pays for the intent, and the verifier does not
   refuse it. Then it is stored and the settlement is of it; otherwise nothing is stored.
   */
  lemma ResumeAnswers(config: Config, st: State, intent: Intent, decisionId: string, answer: Option<Execution>, now: int)
    ensures var (after, reply) := ResumeExecute(config, st, intent, decisionId, answer, now);
            && (reply.Settled? <==>
                  && answer.Some? && !UsedByAnother(st, answer.value.txHash, answer.value.actionRef)
                  && Pays(Complete(answer.value, now), intent) && !Refused(config, answer.value, now))
            && (reply.Settled? ==>
                  var stored := Get(after.confirmations, intent.intentId);
                  && stored.Some? && ConfirmationOf(config, stored.value, answer.value, now)
                  && Stored(config, st, after, stored.value)
                  && SettlementOf(reply.settlement, intent, decisionId, stored.value))
            && (!reply.Settled? ==> after == st && reply.Failed?)
  {
    if answer.Some? {
      var e := answer.value;
      VerifiedIs(config, e, now);
      MatchMeans(Complete(e, now), intent);
      hide Verified, Refused, Lower, Verify, MatchIntent, Amount, IsUsdc;
      if Verified(config, Complete(e, now), now).Ok? {
        var c := Verified(config, Complete(e, now), now).value;
        MatchMeans(c, intent);
        RegisterStores(config, st, c);
        assert Pays(c, intent) <==> Pays(Complete(e, now), intent);
        assert Pays(c, intent) ==> c.actionRef == intent.intentId;
      }
      hide Register, Get, Pays, Complete, ConfirmationOf;
    }
  }
}
