/** What a wallet settlement rests on: a stored confirmation, and a transfer on the chain. */
module SettlementProofs {
  import opened Prelude
  import opened Text
  import OrderedMap
  import opened OnchainVerifier
  import opened OnchainVerifierProofs
  import opened PaymentRail
  import opened PaymentRailProofs
  import opened PaymentRaceProofs

  /** The stored verification points at a transfer that pays for the confirmation. */
  ghost predicate Backed(chain: Chain, c: Confirmation) {
    c.verification.Some? && Paid(chain, ClaimOf(c), c.verification.value.logIndex)
  }

  ghost predicate AllBacked(chain: Chain, confirmations: seq<Confirmation>) {
    forall c :: c in confirmations ==> Backed(chain, c)
  }

  lemma VerifiedIsBacked(config: Config, chain: Chain, c: Confirmation, now: int)
    requires config.verifier == Some(chain) && Verified(config, c, now).Ok?
    ensures Backed(chain, Verified(config, c, now).value)
  {
    hide Verify, Paid;
    var v := Verify(chain, ClaimOf(c), now).value;
    VerifyMeansPaid(chain, ClaimOf(c), now, v.logIndex);
    assert ClaimOf(c.(verification := Some(v))) == ClaimOf(c);
  }

  lemma RegisterBacked(config: Config, chain: Chain, st: State, c: Confirmation)
    requires AllBacked(chain, st.confirmations) && Backed(chain, c) && UniqueActions(st.confirmations)
    ensures AllBacked(chain, Register(config, st, c).confirmations) && UniqueActions(Register(config, st, c).confirmations)
  {
    PutEffect(st.confirmations, c);
    hide Backed, UniqueActions, Put;
  }

  // ---- every stored confirmation is backed ----

  lemma StepBacked(config: Config, chain: Chain, st: State, event: Event)
    requires config.verifier == Some(chain) && FileCurrent(config, st)
    requires UniqueActions(st.confirmations) && AllBacked(chain, st.confirmations)
    ensures var st' := Step(config, st, event);
            FileCurrent(config, st') && UniqueActions(st'.confirmations) && AllBacked(chain, st'.confirmations)
  {
    var st' := Step(config, st, event);
    if event.RestartEvent? {
      LoadRoundTrip(st.confirmations);
      hide UniqueActions, AllBacked, Rebuild;
    } else {
      StepRegisters(config, st, event);
      hide Step, UniqueActions, AllBacked;
      if Accepted(config, st, event) {
        var c := Complete(Brought(event).value, event.now);
        VerifiedIsBacked(config, chain, c, event.now);
        RegisterBacked(config, chain, st, RegisteredBy(config, event));
        hide Verified, Put, Backed;
      }
    }
  }

  lemma {:induction false} RunBacked(config: Config, chain: Chain, st: State, events: seq<Event>)
    requires config.verifier == Some(chain) && FileCurrent(config, st)
    requires UniqueActions(st.confirmations) && AllBacked(chain, st.confirmations)
    ensures AllBacked(chain, Run(config, st, events).confirmations) && UniqueActions(Run(config, st, events).confirmations)
    decreases events
  {
    hide FileCurrent, UniqueActions, AllBacked, Step;
    if events != [] {
      StepBacked(config, chain, st, events[0]);
      RunBacked(config, chain, Step(config, st, events[0]), events[1..]);
    }
  }

  /** A race loses no backing: whatever interleaves at the wallet and the verifier, all that is registered is paid for. */
  lemma {:induction false} RaceRunBacked(config: Config, chain: Chain, r: Racing, events: seq<RaceEvent>)
    requires config.verifier == Some(chain)
    requires UniqueActions(r.rail.confirmations) && AllBacked(chain, r.rail.confirmations)
    ensures AllBacked(chain, RaceRun(config, r, events).rail.confirmations)
    decreases events
  {
    if events != [] {
      var event := events[0];
      StepWrites(config, r, event);
      hide RaceStep;
      if Written(config, r, event).Some? {
        VerifiedIsBacked(config, chain, r.pending[event.request], event.now);
        RegisterBacked(config, chain, r.rail, Written(config, r, event).value);
      }
      hide UniqueActions, AllBacked, Register, Written;
      RaceRunBacked(config, chain, RaceStep(config, r, event), events[1..]);
    }
  }

  // ---- settlements ----

  /** A wallet settlement is of a confirmation that is stored and matches the intent. */
  lemma SettledFrom(config: Config, st: State, e: Event) returns (c: Confirmation)
    requires e.ExecuteEvent?
    requires Execute(config, st, e.intent, e.decisionId, e.answer, e.seeded, e.now).1.Settled?
    ensures c in Execute(config, st, e.intent, e.decisionId, e.answer, e.seeded, e.now).0.confirmations
    ensures MatchIntent(c, e.intent).None?
    ensures Execute(config, st, e.intent, e.decisionId, e.answer, e.seeded, e.now).1 ==
            Settled(WalletSettlement(e.intent, e.decisionId, c))
  {
    hide MatchIntent, Verified, WalletSettlement, IsReplay, Get, Put, Complete, CheckPayment;
    GetIs(st.confirmations, e.intent.intentId);
    var found := Get(st.confirmations, e.intent.intentId);
    if found.Some? {
      c := found.value;
    } else {
      c := PayFromAgentWallet(config, st.(attempts := st.attempts + 1), e.intent, e.answer, e.now).1.value;
      PutHas(st.confirmations, c);
    }
  }

  lemma {:induction false} PutHas(confirmations: seq<Confirmation>, c: Confirmation)
    ensures c in Put(confirmations, c)
  {
    OrderedMap.PutGet(confirmations, ActionOf, c, c.actionRef);
    OrderedMap.GetIs(Put(confirmations, c), ActionOf, c.actionRef);
  }

  /**
   A wallet settlement, verified or not, is for the intent: its action, decision, account, asset
   and chain, the same amount, and its settlement address when it has one.
   */
  lemma SettlementIsForIntent(config: Config, st: State, e: Event)
    requires e.ExecuteEvent?
    ensures var reply := Execute(config, st, e.intent, e.decisionId, e.answer, e.seeded, e.now).1;
            reply.Settled? ==>
              var s := reply.settlement;
              && s.actionRef == e.intent.intentId && s.decisionRef == e.decisionId && s.sourceAccountRef == e.intent.accountId
              && s.asset == e.intent.asset && s.chain == e.intent.chain
              && Amount(s.amount) == Amount(e.intent.amount)
              && (Directed(e.intent) ==> Lower(s.settlementAddress) == Lower(e.intent.settlementAddress.value))
  {
    hide Execute, Lower, DecimalToUnits, Amount;
    if Execute(config, st, e.intent, e.decisionId, e.answer, e.seeded, e.now).1.Settled? {
      var c := SettledFrom(config, st, e);
      SameUnitsSameAmount(c.amount, e.intent.amount, DEFAULT_USDC_DECIMALS);
    }
  }

  /**
   The confirmation's transaction is on its chain, successful and included, and the log at its
   recorded index is a Transfer, of the token and between the parties it names, of exactly the
   intent's amount, to the intent's settlement address when it has one.
   */
  ghost predicate PaysFor(chain: Chain, intent: Intent, c: Confirmation) {
    && c.verification.Some?
    && exists r: Receipt ::
         && Included(chain, ClaimOf(c), r)
         && c.verification.value.logIndex < |r.logs.value|
         && var log := r.logs.value[c.verification.value.logIndex];
            && Lower(log.address) == Lower(c.tokenAddress)
            && |log.topics| >= 3 && Lower(log.topics[0]) == ERC20_TRANSFER_TOPIC
            && TopicAddress(log.topics[1]) == Ok(Lower(c.sender))
            && TopicAddress(log.topics[2]) == Ok(Lower(c.recipient))
            && ParseHexQuantity(log.data).Ok?
            && ParseHexQuantity(log.data).value as real == Amount(intent.amount) * Power(10, DEFAULT_USDC_DECIMALS)
            && (Directed(intent) ==> TopicAddress(log.topics[2]) == Ok(Lower(intent.settlementAddress.value)))
  }

  lemma BackedPays(chain: Chain, intent: Intent, c: Confirmation)
    requires Backed(chain, c) && MatchIntent(c, intent).None?
    ensures PaysFor(chain, intent, c)
  {
    hide Lower, Included, DecimalToUnits, Amount, Power, TopicAddress, ParseHexQuantity;
    var k := c.verification.value.logIndex;
    var r: Receipt, x: Expected :| Included(chain, ClaimOf(c), r) && Reads(ClaimOf(c), x) && FirstTransfer(r, x, k);
    UnitsExact(intent.amount, DEFAULT_USDC_DECIMALS);
    assert IsTransfer(r.logs.value[k], x);
    hide FirstTransfer;
  }

  /**
   With a verifier and an empty start, every wallet settlement that execute returns, after any
   run of confirmations, executions and restarts, is that of a stored confirmation that matches
   the intent, is backed by its verification, and pays for the intent.
   */
  lemma SettlementRestsOnTransfer(config: Config, chain: Chain, failures: nat, events: seq<Event>, last: Event)
    requires config.verifier == Some(chain) && last.ExecuteEvent?
    ensures var st := Run(config, Started(config, None, failures), events);
            var (after, reply) := Execute(config, st, last.intent, last.decisionId, last.answer, last.seeded, last.now);
            reply.Settled? ==>
              exists c :: c in after.confirmations
                          && reply.settlement == WalletSettlement(last.intent, last.decisionId, c)
                          && MatchIntent(c, last.intent).None? && Backed(chain, c) && PaysFor(chain, last.intent, c)
  {
    var start := Started(config, None, failures);
    RunBacked(config, chain, start, events);
    var st := Run(config, start, events);
    RunBacked(config, chain, start, events + [last]);
    RunSnoc(config, start, events, last);
    hide Run, MatchIntent, WalletSettlement, Execute, PaysFor, Backed;
    if Execute(config, st, last.intent, last.decisionId, last.answer, last.seeded, last.now).1.Settled? {
      var c := SettledFrom(config, st, last);
      assert Backed(chain, c);
      BackedPays(chain, last.intent, c);
    }
  }

  lemma {:induction false} RunSnoc(config: Config, st: State, events: seq<Event>, last: Event)
    ensures Run(config, st, events + [last]) == Step(config, Run(config, st, events), last)
    decreases events
  {
    hide Step;
    if events == [] {
      assert [] + [last] == [last] && [last][1..] == [];
    } else {
      assert (events + [last])[0] == events[0] && (events + [last])[1..] == events[1..] + [last];
      RunSnoc(config, Step(config, st, events[0]), events[1..], last);
    }
  }

  // ---- which token ----

  /** The match with the intent never looks at the token. */
  lemma TokenUnchecked(c: Confirmation, intent: Intent, token: string)
    ensures MatchIntent(c.(tokenAddress := token), intent) == MatchIntent(c, intent)
  {
    hide DecimalToUnits, Lower;
  }

  /**
   So a verified payment in any token settles the intent: after it is confirmed, in any state
   that does not refuse it as a replay, execute returns its settlement.
   */
  lemma AnyTokenSettles(config: Config, st: State, paid: Execution, intent: Intent, decisionId: string,
                        answer: Option<Execution>, seeded: bool, now: int)
    requires !IsReplay(st, paid) && st.failuresRemaining == 0
    requires Verified(config, Complete(paid, now), now).Ok? && MatchIntent(Complete(paid, now), intent).None?
    ensures var confirmed := Confirm(config, st, paid, now).0;
            var c := Verified(config, Complete(paid, now), now).value;
            && c.tokenAddress == paid.tokenAddress
            && Execute(config, confirmed, intent, decisionId, answer, seeded, now).1 ==
               Settled(WalletSettlement(intent, decisionId, c))
  {
    var c := Verified(config, Complete(paid, now), now).value;
    VerifiedKeeps(config, Complete(paid, now), now);
    MatchIgnoresVerification(Complete(paid, now), intent, c.verification);
    OrderedMap.PutGet(st.confirmations, ActionOf, c, c.actionRef);
    assert c.actionRef == intent.intentId;
    hide Verified, IsReplay, OrderedMap.Get, OrderedMap.Put, WalletSettlement, MatchIntent;
  }

  lemma MatchIgnoresVerification(c: Confirmation, intent: Intent, v: Option<Verification>)
    ensures MatchIntent(c.(verification := v), intent) == MatchIntent(c, intent)
  {
    hide DecimalToUnits, Lower;
  }

  /** The token that moved is the asset's exactly when the confirmation names the asset's token, which nothing requires. */
  lemma TokenOfTheAsset(chain: Chain, intent: Intent, c: Confirmation, asset: string, r: Receipt)
    requires PaysFor(chain, intent, c) && Included(chain, ClaimOf(c), r)
    ensures c.verification.value.logIndex < |r.logs.value|
    ensures Lower(r.logs.value[c.verification.value.logIndex].address) == Lower(asset) <==>
            Lower(c.tokenAddress) == Lower(asset)
  {
    hide Lower, TopicAddress, ParseHexQuantity, Amount, Power;
  }
}
