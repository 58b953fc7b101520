/**
 The payment rail at its awaits: requests that wait for the agent wallet or the verifier while
 others go on. What races break, exactly, and how often the wallet is asked to pay.
 */
module PaymentRaceProofs {
  import opened Prelude
  import opened Text
  import OrderedMap
  import opened OnchainVerifier
  import opened PaymentRail
  import opened PaymentRailProofs

  /** `asked`: the intents the wallet was asked to pay, in order; `paying` await it, `pending` await the verifier. */
  datatype Racing = Racing(rail: State, asked: seq<string>, paying: seq<Intent>, pending: seq<Confirmation>)

  datatype RaceEvent =
    | Check(input: Execution, now: int)                                 // a confirm request arrives
    | Order(intent: Intent)                                             // an execute request arrives
    | WalletAnswers(request: nat, answer: Option<Execution>, now: int)
    | VerifierAnswers(request: nat, now: int)

  function Dropped<T>(waiting: seq<T>, i: nat): seq<T>
    requires i < |waiting|
  {
    waiting[..i] + waiting[i + 1..]
  }

  /** A checked payment is registered at once without a verifier, and awaits the verifier otherwise. */
  function Submit(config: Config, r: Racing, c: Confirmation): Racing {
    if config.verifier.None? then r.(rail := Register(config, r.rail, c)) else r.(pending := r.pending + [c])
  }

  function PlaceOrder(config: Config, r: Racing, intent: Intent): Racing {
    var (rail, begun) := BeginExecute(config, r.rail, intent, "", false);
    if begun.AwaitsWallet? then r.(rail := rail, asked := r.asked + [intent.intentId], paying := r.paying + [intent])
    else r.(rail := rail)
  }

  function RaceStep(config: Config, r: Racing, event: RaceEvent): Racing {
    match event
    case Check(input, now) => if IsReplay(r.rail, input) then r else Submit(config, r, Complete(input, now))
    case Order(intent) => PlaceOrder(config, r, intent)
    case WalletAnswers(i, answer, now) =>
      if i >= |r.paying| then r
      else
        var waiting := r.(paying := Dropped(r.paying, i));
        (match CheckPayment(r.rail, r.paying[i], answer, now)
         case Err(_) => waiting
         case Ok(c) => Submit(config, waiting, c))
    case VerifierAnswers(i, now) =>
      if i >= |r.pending| then r
      else
        var waiting := r.(pending := Dropped(r.pending, i));
        match Verified(config, r.pending[i], now)
        case Err(_) => waiting
        case Ok(c) => waiting.(rail := Register(config, r.rail, c))
  }

  function RaceRun(config: Config, r: Racing, events: seq<RaceEvent>): Racing
    decreases events
  {
    if events == [] then r else RaceRun(config, RaceStep(config, r, events[0]), events[1..])
  }

  function Quiet(st: State): Racing {
    Racing(st, [], [], [])
  }

  // ---- undisturbed, the steps are the routes ----

  lemma UndisturbedConfirm(config: Config, r: Racing, input: Execution, now: int)
    ensures var checked := RaceStep(config, r, Check(input, now));
            var done := if |checked.pending| > |r.pending|
                        then RaceStep(config, checked, VerifierAnswers(|r.pending|, now)) else checked;
            done == r.(rail := Confirm(config, r.rail, input, now).0)
  {
    hide Verify, Register, Complete, IsReplay;
    assert Dropped(r.pending + [Complete(input, now)], |r.pending|) == r.pending;
  }

  lemma UndisturbedPayment(config: Config, r: Racing, intent: Intent, answer: Option<Execution>, now: int)
    ensures var paid := RaceStep(config, r.(paying := r.paying + [intent]), WalletAnswers(|r.paying|, answer, now));
            var done := if |paid.pending| > |r.pending|
                        then RaceStep(config, paid, VerifierAnswers(|r.pending|, now)) else paid;
            done == r.(rail := PayFromAgentWallet(config, r.rail, intent, answer, now).0)
  {
    hide Verify, Register, CheckPayment;
    assert Dropped(r.paying + [intent], |r.paying|) == r.paying;
    var checked := CheckPayment(r.rail, intent, answer, now);
    if checked.Ok? {
      assert Dropped(r.pending + [checked.value], |r.pending|) == r.pending;
    }
  }

  lemma UndisturbedExecute(config: Config, r: Racing, intent: Intent, answer: Option<Execution>, now: int,
                           decisionId: string, seeded: bool)
    ensures var ordered := RaceStep(config, r, Order(intent));
            var paid := if |ordered.paying| > |r.paying|
                        then RaceStep(config, ordered, WalletAnswers(|r.paying|, answer, now)) else ordered;
            var done := if |paid.pending| > |r.pending|
                        then RaceStep(config, paid, VerifierAnswers(|r.pending|, now)) else paid;
            && done.rail == Execute(config, r.rail, intent, decisionId, answer, seeded, now).0
            && done.paying == r.paying && done.pending == r.pending
  {
    hide PayFromAgentWallet, Get, Settle;
    var ordered := RaceStep(config, r, Order(intent));
    hide CheckPayment, Verified, Submit;
    if |ordered.paying| > |r.paying| {
      UndisturbedPayment(config, ordered.(paying := r.paying), intent, answer, now);
      assert ordered.(paying := r.paying).(paying := r.paying + [intent]) == ordered;
      hide RaceStep;
    }
  }

  // ---- one transaction, one action ----

  /** The confirmation the event writes into the registry, if any. */
  function Written(config: Config, r: Racing, event: RaceEvent): Option<Confirmation> {
    match event
    case Check(input, now) =>
      if config.verifier.None? && !IsReplay(r.rail, input) then Some(Complete(input, now)) else None
    case Order(_) => None
    case WalletAnswers(i, answer, now) =>
      if config.verifier.None? && i < |r.paying| && CheckPayment(r.rail, r.paying[i], answer, now).Ok?
      then Some(CheckPayment(r.rail, r.paying[i], answer, now).value) else None
    case VerifierAnswers(i, now) =>
      if i < |r.pending| && Verified(config, r.pending[i], now).Ok?
      then Some(Verified(config, r.pending[i], now).value) else None
  }

  lemma StepWrites(config: Config, r: Racing, event: RaceEvent)
    ensures var w := Written(config, r, event);
            SameRegistry(if w.Some? then Register(config, r.rail, w.value) else r.rail, RaceStep(config, r, event).rail)
  {
    hide Verified, CheckPayment, IsReplay, Put, Get;
  }

  /** The event writes a payment whose transaction a confirmation of another action holds. */
  predicate Overtaken(config: Config, r: Racing, event: RaceEvent) {
    var w := Written(config, r, event);
    w.Some? && Rival(r.rail, w.value)
  }

  lemma RaceStepConsistent(config: Config, r: Racing, event: RaceEvent)
    requires Consistent(r.rail)
    ensures Consistent(RaceStep(config, r, event).rail) <==> !Overtaken(config, r, event)
  {
    StepWrites(config, r, event);
    var w := Written(config, r, event);
    if w.Some? {
      RegisterConsistent(config, r.rail, w.value);
      SameRegistryConsistent(Register(config, r.rail, w.value), RaceStep(config, r, event).rail);
    } else {
      SameRegistryConsistent(r.rail, RaceStep(config, r, event).rail);
    }
    hide Consistent, Register, Written, RaceStep, Rival;
  }

  ghost predicate RaceConsistentThroughout(config: Config, r: Racing, events: seq<RaceEvent>)
    decreases events
  {
    Consistent(r.rail) && (events == [] || RaceConsistentThroughout(config, RaceStep(config, r, events[0]), events[1..]))
  }

  predicate NoneOvertaken(config: Config, r: Racing, events: seq<RaceEvent>)
    decreases events
  {
    events == [] ||
    (!Overtaken(config, r, events[0]) && NoneOvertaken(config, RaceStep(config, r, events[0]), events[1..]))
  }

  /** For every interleaving of requests, the registry is consistent throughout exactly when no write is overtaken. */
  lemma {:induction false} RaceRunConsistent(config: Config, r: Racing, events: seq<RaceEvent>)
    requires Consistent(r.rail)
    ensures RaceConsistentThroughout(config, r, events) <==> NoneOvertaken(config, r, events)
    decreases events
  {
    hide Consistent, RaceStep, Overtaken;
    if events != [] {
      RaceStepConsistent(config, r, events[0]);
      if !Overtaken(config, r, events[0]) {
        RaceRunConsistent(config, RaceStep(config, r, events[0]), events[1..]);
      }
    }
  }

  /**
   Without a verifier there is no await between the check and the write, and the only write that
   is overtaken is one that takes a transaction from the action named "".
   */
  lemma NoVerifierNoRace(config: Config, r: Racing, event: RaceEvent)
    requires config.verifier.None? && r.pending == [] && Consistent(r.rail)
    ensures Overtaken(config, r, event) <==>
            Written(config, r, event).Some? && Written(config, r, event).value.actionRef != ""
            && UnnamedHolds(r.rail, Key(Written(config, r, event).value))
    ensures RaceStep(config, r, event).pending == []
  {
    hide Consistent, Rival, UnnamedHolds, MatchIntent, Lower, Register, BeginExecute;
    if Written(config, r, event).Some? {
      var c := Written(config, r, event).value;
      match event
      case Check(input, _) => RivalIsUnnamed(r.rail, input, c);
      case WalletAnswers(_, answer, _) => RivalIsUnnamed(r.rail, answer.value, c);
    }
  }

  // ---- two actions, one transfer ----

  lemma FourSteps(config: Config, r: Racing, events: seq<RaceEvent>)
    requires |events| == 4
    ensures RaceRun(config, r, events) ==
            RaceStep(config, RaceStep(config, RaceStep(config, RaceStep(config, r, events[0]), events[1]), events[2]), events[3])
  {
    hide RaceStep;
    var r1 := RaceStep(config, r, events[0]);
    assert events[1..][1..] == events[2..];
    var r2 := RaceStep(config, r1, events[1]);
    assert RaceRun(config, r1, events[1..]) == RaceRun(config, r2, events[2..]);
    assert events[2..][1..] == events[3..];
    var r3 := RaceStep(config, r2, events[2]);
    assert RaceRun(config, r2, events[2..]) == RaceRun(config, r3, events[3..]);
    assert events[3..][1..] == [];
    assert RaceRun(config, r3, events[3..]) == RaceRun(config, RaceStep(config, r3, events[3]), []);
  }

  lemma BothPending(config: Config, st: State, a: Execution, b: Execution, now: int)
    requires config.verifier.Some? && !IsReplay(st, a) && !IsReplay(st, b)
    ensures RaceStep(config, RaceStep(config, Quiet(st), Check(a, now)), Check(b, now)) ==
            Racing(st, [], [], [Complete(a, now), Complete(b, now)])
  {
    hide IsReplay, Complete;
    assert [] + [Complete(a, now)] == [Complete(a, now)];
  }

  lemma BothRegistered(config: Config, st: State, a: Confirmation, b: Confirmation, now: int)
    requires Verified(config, a, now).Ok? && Verified(config, b, now).Ok?
    ensures RaceStep(config, RaceStep(config, Racing(st, [], [], [a, b]), VerifierAnswers(0, now)), VerifierAnswers(0, now)) ==
            Quiet(Register(config, Register(config, st, Verified(config, a, now).value), Verified(config, b, now).value))
  {
    hide Verified, Register;
    assert Dropped([a, b], 0) == [b] && Dropped([b], 0) == [];
  }

  /** A claim says nothing of the action, so the verifier answers alike for another action. */
  lemma SameClaim(config: Config, e: Execution, action: string, now: int)
    ensures Verified(config, Complete(e, now), now).Ok? <==>
            Verified(config, Complete(e.(actionRef := action), now), now).Ok?
  {
    assert ClaimOf(Complete(e, now)) == ClaimOf(Complete(e.(actionRef := action), now));
    hide Verify;
  }

  /**
   The failing family: with a verifier, one verifiable transfer claimed for two actions at the
   same time is registered for both.
   */
  lemma TwoActionsOneTransfer(config: Config, a: Execution, other: string, now: int)
    requires config.verifier.Some? && other != a.actionRef && Verified(config, Complete(a, now), now).Ok?
    ensures var b := a.(actionRef := other);
            var r := RaceRun(config, Quiet(Started(config, None, 0)),
                             [Check(a, now), Check(b, now), VerifierAnswers(0, now), VerifierAnswers(0, now)]);
            && r.pending == [] && |r.rail.confirmations| == 2
            && r.rail.confirmations[0].actionRef == a.actionRef && r.rail.confirmations[1].actionRef == other
            && Key(r.rail.confirmations[0]) == Key(r.rail.confirmations[1])
            && !Consistent(r.rail)
  {
    var b := a.(actionRef := other);
    var st := Started(config, None, 0);
    var events := [Check(a, now), Check(b, now), VerifierAnswers(0, now), VerifierAnswers(0, now)];
    SameClaim(config, a, other, now);
    FourSteps(config, Quiet(st), events);
    assert !IsReplay(st, a) && !IsReplay(st, b);
    hide RaceStep, RaceRun;
    BothPending(config, st, a, b, now);
    BothRegistered(config, st, Complete(a, now), Complete(b, now), now);
    var va, vb := Verified(config, Complete(a, now), now).value, Verified(config, Complete(b, now), now).value;
    VerifiedKeeps(config, Complete(a, now), now);
    VerifiedKeeps(config, Complete(b, now), now);
    hide Verified, IsReplay;
    TwoRegistered(config, st, va, vb);
  }

  lemma TwoRegistered(config: Config, st: State, a: Confirmation, b: Confirmation)
    requires st.confirmations == [] && a.actionRef != b.actionRef && Key(a) == Key(b)
    ensures var after := Register(config, Register(config, st, a), b);
            after.confirmations == [a, b] && !Consistent(after)
  {
    var after := Register(config, Register(config, st, a), b);
    assert Put([], a) == [a];
    OrderedMap.PutNew([a], ActionOf, b);
    hide Key, Put;
    assert after.confirmations == [a] + [b] == [a, b];
    assert a in after.confirmations && b in after.confirmations;
    if Consistent(after) {
      NoSharedTransaction(after, a, b);
    }
  }

  // ---- how often the wallet is asked ----

  /** The wallet was asked at most once for every intent. */
  predicate AskedOnce(asked: seq<string>) {
    forall i, j :: 0 <= i < j < |asked| ==> asked[i] != asked[j]
  }

  /** The order asks the wallet although it was asked for the intent before: no confirmation has come of that. */
  predicate AsksAgain(config: Config, r: Racing, event: RaceEvent) {
    && event.Order? && event.intent.intentId in r.asked
    && config.hasExecutor && r.rail.failuresRemaining == 0 && Get(r.rail.confirmations, event.intent.intentId).None?
  }

  predicate NoneAsksAgain(config: Config, r: Racing, events: seq<RaceEvent>)
    decreases events
  {
    events == [] ||
    (!AsksAgain(config, r, events[0]) && NoneAsksAgain(config, RaceStep(config, r, events[0]), events[1..]))
  }

  lemma StepAsks(config: Config, r: Racing, event: RaceEvent)
    ensures var asked := RaceStep(config, r, event).asked;
            && r.asked <= asked
            && (AskedOnce(asked) <==> AskedOnce(r.asked) && !AsksAgain(config, r, event))
  {
    hide Verified, CheckPayment, Register, Get, Complete, IsReplay;
    var asked := RaceStep(config, r, event).asked;
    if event.Order? && asked != r.asked {
      var id := event.intent.intentId;
      assert asked == r.asked + [id];
      assert forall i :: 0 <= i < |r.asked| ==> asked[i] == r.asked[i];
      if id in r.asked {
        var i :| 0 <= i < |r.asked| && r.asked[i] == id;
        assert asked[i] == asked[|r.asked|];
      }
    }
  }

  /** Over every interleaving, the wallet is asked at most once per intent exactly when no order asks it again. */
  lemma {:induction false} WalletAskedOnce(config: Config, r: Racing, events: seq<RaceEvent>)
    ensures r.asked <= RaceRun(config, r, events).asked
    ensures AskedOnce(RaceRun(config, r, events).asked) <==> AskedOnce(r.asked) && NoneAsksAgain(config, r, events)
    decreases events
  {
    hide RaceStep, AsksAgain, AskedOnce;
    if events != [] {
      StepAsks(config, r, events[0]);
      WalletAskedOnce(config, RaceStep(config, r, events[0]), events[1..]);
    }
  }

  function TimesAsked(asked: seq<string>, id: string): nat {
    if asked == [] then 0
    else TimesAsked(asked[..|asked| - 1], id) + (if asked[|asked| - 1] == id then 1 else 0)
  }

  lemma StepKeepsConfirmed(config: Config, r: Racing, event: RaceEvent, id: string)
    requires Get(r.rail.confirmations, id).Some?
    ensures var r' := RaceStep(config, r, event);
            Get(r'.rail.confirmations, id).Some? && TimesAsked(r'.asked, id) == TimesAsked(r.asked, id)
  {
    StepWrites(config, r, event);
    var w := Written(config, r, event);
    if w.Some? {
      OrderedMap.PutGet(r.rail.confirmations, ActionOf, w.value, id);
    }
    hide Written, OrderedMap.Get, OrderedMap.Put, Submit, CheckPayment, Verified, IsReplay, Complete;
    if event.Order? && RaceStep(config, r, event).asked != r.asked {
      assert RaceStep(config, r, event).asked == r.asked + [event.intent.intentId];
    }
  }

  /** Once an intent has a confirmation, the wallet is never asked for it again, whatever interleaves. */
  lemma {:induction false} ConfirmedNeverAsked(config: Config, r: Racing, events: seq<RaceEvent>, id: string)
    requires Get(r.rail.confirmations, id).Some?
    ensures TimesAsked(RaceRun(config, r, events).asked, id) == TimesAsked(r.asked, id)
    decreases events
  {
    hide RaceStep, Get, TimesAsked;
    if events != [] {
      StepKeepsConfirmed(config, r, events[0], id);
      ConfirmedNeverAsked(config, RaceStep(config, r, events[0]), events[1..], id);
    }
  }

  /** Two orders at the same time ask the wallet twice. */
  lemma TwoOrdersAskTwice(config: Config, intent: Intent)
    requires config.hasExecutor
    ensures RaceRun(config, Quiet(Started(config, None, 0)), [Order(intent), Order(intent)]).asked ==
            [intent.intentId, intent.intentId]
  {
    var r0 := Quiet(Started(config, None, 0));
    var r1 := RaceStep(config, r0, Order(intent));
    assert r1.asked == [intent.intentId] && r1.rail.confirmations == [] && r1.rail.failuresRemaining == 0;
    var r2 := RaceStep(config, r1, Order(intent));
    assert r2.asked == [intent.intentId] + [intent.intentId];
    hide RaceStep;
    assert [Order(intent), Order(intent)][1..] == [Order(intent)];
    assert [Order(intent)][1..] == [];
    assert RaceRun(config, r1, [Order(intent)]) == r2;
  }

  /** So does a retry, one request after the other, when the wallet has paid but the verifier refuses. */
  lemma RetryAsksAgain(config: Config, intent: Intent, paid: Execution, now: int)
    requires config.hasExecutor && config.verifier.Some?
    requires MatchIntent(Complete(paid, now), intent).None? && Verified(config, Complete(paid, now), now).Err?
    ensures var events := [Order(intent), WalletAnswers(0, Some(paid), now), VerifierAnswers(0, now), Order(intent)];
            RaceRun(config, Quiet(Started(config, None, 0)), events).asked == [intent.intentId, intent.intentId]
  {
    var st := Started(config, None, 0);
    var once, c := st.(attempts := 1), Complete(paid, now);
    var events := [Order(intent), WalletAnswers(0, Some(paid), now), VerifierAnswers(0, now), Order(intent)];
    FourSteps(config, Quiet(st), events);
    assert !IsReplay(once, paid);
    hide RaceRun, Verified, MatchIntent, Complete, IsReplay, Settle;
    var r1 := RaceStep(config, Quiet(st), Order(intent));
    assert r1 == Racing(once, [intent.intentId], [intent], []);
    PaidButRefused(config, once, [intent.intentId], intent, paid, now);
    var r3 := Racing(once, [intent.intentId], [], []);
    assert RaceStep(config, r3, Order(intent)).asked == [intent.intentId] + [intent.intentId];
    hide RaceStep;
  }

  lemma PaidButRefused(config: Config, st: State, asked: seq<string>, intent: Intent, paid: Execution, now: int)
    requires config.verifier.Some? && !IsReplay(st, paid)
    requires MatchIntent(Complete(paid, now), intent).None? && Verified(config, Complete(paid, now), now).Err?
    ensures RaceStep(config, RaceStep(config, Racing(st, asked, [intent], []), WalletAnswers(0, Some(paid), now)),
                     VerifierAnswers(0, now)) == Racing(st, asked, [], [])
  {
    hide Verified, MatchIntent, Complete, IsReplay;
    var c := Complete(paid, now);
    assert Dropped([intent], 0) == [] && [] + [c] == [c] && Dropped([c], 0) == [];
  }

  // ---- serial clients ----

  /** The execute request asks the wallet to pay for this intent. */
  predicate Asks(config: Config, st: State, event: Event, id: string) {
    && event.ExecuteEvent? && event.intent.intentId == id
    && config.hasExecutor && st.failuresRemaining == 0 && Get(st.confirmations, id).None?
  }

  predicate Fails(config: Config, st: State, event: Event)
    requires event.ExecuteEvent?
  {
    Execute(config, st, event.intent, event.decisionId, event.answer, event.seeded, event.now).1.Failed?
  }

  function SerialAsks(config: Config, st: State, events: seq<Event>, id: string): nat
    decreases events
  {
    if events == [] then 0
    else (if Asks(config, st, events[0], id) then 1 else 0) + SerialAsks(config, Step(config, st, events[0]), events[1..], id)
  }

  /** Those of them that are answered with a failure. */
  function FailedAsks(config: Config, st: State, events: seq<Event>, id: string): nat
    decreases events
  {
    if events == [] then 0
    else
      (if Asks(config, st, events[0], id) && Fails(config, st, events[0]) then 1 else 0)
      + FailedAsks(config, Step(config, st, events[0]), events[1..], id)
  }

  /** A request that asks the wallet fails, or leaves a confirmation; and confirmations stay. */
  lemma StepConfirms(config: Config, st: State, event: Event, id: string)
    requires !event.RestartEvent?
    ensures Get(st.confirmations, id).Some? ==> Get(Step(config, st, event).confirmations, id).Some?
    ensures Asks(config, st, event, id) && !Fails(config, st, event) ==> Get(Step(config, st, event).confirmations, id).Some?
  {
    StepRegisters(config, st, event);
    if Accepted(config, st, event) {
      VerifiedKeeps(config, Complete(Brought(event).value, event.now), event.now);
      OrderedMap.PutGet(st.confirmations, ActionOf, RegisteredBy(config, event), id);
    }
    hide Verified, OrderedMap.Get, OrderedMap.Put, IsReplay;
  }

  /**
   A client that sends one request after the other has the wallet asked at most once more than
   it was told of a failure, and not at all for an intent that is confirmed.
   */
  lemma {:induction false} SerialAsksBounded(config: Config, st: State, events: seq<Event>, id: string)
    requires NoRestart(events)
    ensures SerialAsks(config, st, events, id) <=
            FailedAsks(config, st, events, id) + (if Get(st.confirmations, id).Some? then 0 else 1)
    decreases events
  {
    if events != [] {
      StepConfirms(config, st, events[0], id);
      hide Step, Get, Fails;
      SerialAsksBounded(config, Step(config, st, events[0]), events[1..], id);
    }
  }
}
