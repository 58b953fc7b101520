/** The confirmation registry: one transaction, one action, over serial runs and restarts. */
module PaymentRailProofs {
  import opened Prelude
  import opened Text
  import OrderedMap
  import opened OnchainVerifier
  import opened PaymentRail

  // ---- the map of confirmations ----

  predicate UniqueActions(confirmations: seq<Confirmation>) {
    OrderedMap.Unique(confirmations, ActionOf)
  }

  lemma PutEffect(confirmations: seq<Confirmation>, c: Confirmation)
    requires UniqueActions(confirmations)
    ensures var after := Put(confirmations, c);
            && UniqueActions(after)
            && forall x :: x in after <==> x == c || (x in confirmations && x.actionRef != c.actionRef)
  {
    OrderedMap.PutEffect(confirmations, ActionOf, c);
    hide OrderedMap.Put, OrderedMap.Unique;
  }

  lemma GetIs(confirmations: seq<Confirmation>, actionRef: string)
    ensures var found := Get(confirmations, actionRef);
            && (found.Some? ==> found.value in confirmations && found.value.actionRef == actionRef)
            && (found.None? ==> forall x :: x in confirmations ==> x.actionRef != actionRef)
  {
    OrderedMap.GetIs(confirmations, ActionOf, actionRef);
    hide OrderedMap.Get;
  }

  // ---- the registry ----

  /** Every confirmation's transaction is indexed to its own action. */
  predicate Consistent(st: State) {
    && UniqueActions(st.confirmations)
    && forall c :: c in st.confirmations ==> Key(c) in st.txHashes && st.txHashes[Key(c)] == c.actionRef
  }

  predicate DistinctHashes(confirmations: seq<Confirmation>) {
    forall c, d :: c in confirmations && d in confirmations && Key(c) == Key(d) ==> c.actionRef == d.actionRef
  }

  /** Two confirmations of a consistent registry never share a transaction. */
  lemma NoSharedTransaction(st: State, c: Confirmation, d: Confirmation)
    requires Consistent(st) && c in st.confirmations && d in st.confirmations && Key(c) == Key(d)
    ensures c == d
  {
    var i :| 0 <= i < |st.confirmations| && st.confirmations[i] == c;
    var j :| 0 <= j < |st.confirmations| && st.confirmations[j] == d;
    assert st.confirmations[i].actionRef == st.confirmations[j].actionRef;
  }

  /** A confirmation of another action holds the transaction. */
  predicate Rival(st: State, c: Confirmation) {
    exists d :: d in st.confirmations && d.actionRef != c.actionRef && Key(d) == Key(c)
  }

  /** The exact condition under which registering a confirmation keeps the registry consistent. */
  lemma RegisterConsistent(config: Config, st: State, c: Confirmation)
    requires Consistent(st)
    ensures Consistent(Register(config, st, c)) <==> !Rival(st, c)
  {
    PutEffect(st.confirmations, c);
    var after := Register(config, st, c);
    assert c in after.confirmations;
    hide UniqueActions, Put, Key;
    if Rival(st, c) {
      var d :| d in st.confirmations && d.actionRef != c.actionRef && Key(d) == Key(c);
      assert d in after.confirmations && after.txHashes[Key(d)] == c.actionRef;
    }
  }

  // ---- serial runs ----

  datatype Event =
    | ConfirmEvent(input: Execution, now: int)
    | ExecuteEvent(intent: Intent, decisionId: string, answer: Option<Execution>, seeded: bool, now: int)
    | RestartEvent(failures: nat)

  function Step(config: Config, st: State, event: Event): State {
    match event
    case ConfirmEvent(input, now) => Confirm(config, st, input, now).0
    case ExecuteEvent(intent, decisionId, answer, seeded, now) =>
      Execute(config, st, intent, decisionId, answer, seeded, now).0
    case RestartEvent(failures) => Started(config, st.file, failures)
  }

  function Run(config: Config, st: State, events: seq<Event>): State
    decreases events
  {
    if events == [] then st else Run(config, Step(config, st, events[0]), events[1..])
  }

  /** Everything but the counters is the same. */
  predicate SameRegistry(st: State, st': State) {
    st'.confirmations == st.confirmations && st'.txHashes == st.txHashes && st'.file == st.file
  }

  /** The payment an event brings, if any. */
  function Brought(event: Event): Option<Execution> {
    match event
    case ConfirmEvent(input, _) => Some(input)
    case ExecuteEvent(_, _, answer, _, _) => answer
    case RestartEvent(_) => None
  }

  /** The request gets as far as registering the payment it brings. */
  predicate Accepted(config: Config, st: State, event: Event) {
    && Brought(event).Some?
    && !IsReplay(st, Brought(event).value)
    && Verified(config, Complete(Brought(event).value, event.now), event.now).Ok?
    && (event.ExecuteEvent? ==>
          && st.failuresRemaining == 0 && config.hasExecutor && Get(st.confirmations, event.intent.intentId).None?
          && MatchIntent(Complete(event.answer.value, event.now), event.intent).None?)
  }

  function RegisteredBy(config: Config, event: Event): Confirmation
    requires Brought(event).Some? && Verified(config, Complete(Brought(event).value, event.now), event.now).Ok?
  {
    Verified(config, Complete(Brought(event).value, event.now), event.now).value
  }

  /** A request registers the payment it brings, verified, when it is accepted, and nothing otherwise. */
  lemma StepRegisters(config: Config, st: State, event: Event)
    requires !event.RestartEvent?
    ensures SameRegistry(if Accepted(config, st, event) then Register(config, st, RegisteredBy(config, event)) else st,
                         Step(config, st, event))
  {
    hide Verified, MatchIntent, Get, Put, Lower, Complete, Settle;
    if event.ExecuteEvent? && event.answer.Some? {
      var counted := st.(attempts := st.attempts + 1);
      assert IsReplay(counted, event.answer.value) == IsReplay(st, event.answer.value);
    }
  }

  /** The file holds what a restart needs. */
  predicate FileCurrent(config: Config, st: State) {
    config.persistent ==> st.file == Some(st.confirmations) || (st.file.None? && st.confirmations == [])
  }

  /** The event registers, for a named action, a transaction that the action named "" holds. */
  predicate TakesFromUnnamed(config: Config, st: State, event: Event) {
    Accepted(config, st, event) && Brought(event).value.actionRef != "" && UnnamedHolds(st, Lower(Brought(event).value.txHash))
  }

  predicate UnnamedHolds(st: State, h: string) {
    exists d :: d in st.confirmations && d.actionRef == "" && Key(d) == h
  }

  lemma VerifiedKeeps(config: Config, c: Confirmation, now: int)
    requires Verified(config, c, now).Ok?
    ensures var v := Verified(config, c, now).value; v.(verification := c.verification) == c
  {
    hide Verify;
  }

  lemma SameRegistryConsistent(st: State, st': State)
    requires SameRegistry(st, st')
    ensures Consistent(st) <==> Consistent(st')
  {}

  /** In a consistent registry, what passes the replay check has no rival but the action named "". */
  lemma RivalIsUnnamed(st: State, e: Execution, c: Confirmation)
    requires Consistent(st) && !IsReplay(st, e) && c.actionRef == e.actionRef && c.txHash == e.txHash
    ensures Rival(st, c) <==>
            e.actionRef != "" && UnnamedHolds(st, Lower(e.txHash))
  {
    hide UniqueActions, Lower;
  }

  /** One serial step keeps the registry consistent exactly unless it takes a transaction from the action named "". */
  lemma StepConsistent(config: Config, st: State, event: Event)
    requires Consistent(st) && FileCurrent(config, st)
    ensures Consistent(Step(config, st, event)) <==> !TakesFromUnnamed(config, st, event)
    ensures FileCurrent(config, Step(config, st, event))
  {
    var st' := Step(config, st, event);
    if event.RestartEvent? {
      RestartConsistent(config, st, event.failures);
    } else {
      StepRegisters(config, st, event);
      hide Step;
      if Accepted(config, st, event) {
        var e := Brought(event).value;
        var c := RegisteredBy(config, event);
        VerifiedKeeps(config, Complete(e, event.now), event.now);
        RegisterConsistent(config, st, c);
        RivalIsUnnamed(st, e, c);
        SameRegistryConsistent(Register(config, st, c), st');
        hide Consistent, Rival, Verified, Lower, Put, UnnamedHolds;
      } else {
        SameRegistryConsistent(st, st');
      }
    }
  }

  ghost predicate ConsistentThroughout(config: Config, st: State, events: seq<Event>)
    decreases events
  {
    Consistent(st) && (events == [] || ConsistentThroughout(config, Step(config, st, events[0]), events[1..]))
  }

  predicate NoneTakesFromUnnamed(config: Config, st: State, events: seq<Event>)
    decreases events
  {
    events == [] ||
    (!TakesFromUnnamed(config, st, events[0]) && NoneTakesFromUnnamed(config, Step(config, st, events[0]), events[1..]))
  }

  /** Over every serial run, restarts included, the registry is consistent throughout exactly under that condition. */
  lemma {:induction false} RunConsistent(config: Config, st: State, events: seq<Event>)
    requires Consistent(st) && FileCurrent(config, st)
    ensures ConsistentThroughout(config, st, events) <==> NoneTakesFromUnnamed(config, st, events)
    ensures NoneTakesFromUnnamed(config, st, events) ==> Consistent(Run(config, st, events))
    decreases events
  {
    hide Consistent, FileCurrent, Step, TakesFromUnnamed;
    if events != [] {
      StepConsistent(config, st, events[0]);
      if !TakesFromUnnamed(config, st, events[0]) {
        RunConsistent(config, Step(config, st, events[0]), events[1..]);
      }
    }
  }

  predicate Named(event: Event) {
    Brought(event).Some? ==> Brought(event).value.actionRef != ""
  }

  /** In particular, when every payment names its action, two actions never share a transaction. */
  lemma {:induction false} NamedRunConsistent(config: Config, st: State, events: seq<Event>)
    requires Consistent(st) && FileCurrent(config, st)
    requires forall c :: c in st.confirmations ==> c.actionRef != ""
    requires forall i :: 0 <= i < |events| ==> Named(events[i])
    ensures Consistent(Run(config, st, events))
    decreases events
  {
    if events != [] {
      assert Named(events[0]);
      StepNamed(config, st, events[0]);
      StepConsistent(config, st, events[0]);
      hide Consistent, FileCurrent, Step, Named;
      NamedRunConsistent(config, Step(config, st, events[0]), events[1..]);
    }
  }

  lemma StepNamed(config: Config, st: State, event: Event)
    requires UniqueActions(st.confirmations) && FileCurrent(config, st) && Named(event)
    requires forall c :: c in st.confirmations ==> c.actionRef != ""
    ensures forall c :: c in Step(config, st, event).confirmations ==> c.actionRef != ""
  {
    if event.RestartEvent? {
      LoadRoundTrip(st.confirmations);
    } else {
      StepRegisters(config, st, event);
      hide Step;
      if Accepted(config, st, event) {
        VerifiedKeeps(config, Complete(Brought(event).value, event.now), event.now);
        PutEffect(st.confirmations, RegisteredBy(config, event));
      }
      hide UniqueActions, Verified, Put, Lower;
    }
  }

  // ---- a transaction is never used for a second action ----

  /** Transactions registered for a named action stay registered for it. */
  predicate KeepsOwners(before: map<string, string>, after: map<string, string>) {
    forall h :: h in before && before[h] != "" ==> h in after && after[h] == before[h]
  }

  lemma StepKeepsOwners(config: Config, st: State, event: Event)
    requires !event.RestartEvent?
    ensures KeepsOwners(st.txHashes, Step(config, st, event).txHashes)
  {
    StepRegisters(config, st, event);
    hide Step;
    if Accepted(config, st, event) {
      VerifiedKeeps(config, Complete(Brought(event).value, event.now), event.now);
    }
    hide Verified, Put, Lower;
  }

  predicate NoRestart(events: seq<Event>) {
    forall i :: 0 <= i < |events| ==> !events[i].RestartEvent?
  }

  /**
   Between restarts, a transaction once used for a named action is never used for another, even
   after its action has moved on to another transaction.
   */
  lemma {:induction false} RunKeepsOwners(config: Config, st: State, events: seq<Event>)
    requires NoRestart(events)
    ensures KeepsOwners(st.txHashes, Run(config, st, events).txHashes)
    decreases events
  {
    if events != [] {
      StepKeepsOwners(config, st, events[0]);
      RunKeepsOwners(config, Step(config, st, events[0]), events[1..]);
      hide Step, Run;
    }
  }

  // ---- restarts ----

  lemma SnocIn(list: seq<Confirmation>)
    requires list != []
    ensures forall c :: c in list <==> c in list[..|list| - 1] || c == list[|list| - 1]
  {
    assert list == list[..|list| - 1] + [list[|list| - 1]];
  }

  /** The rebuilt index has exactly the transactions of the confirmations, each with an action it belongs to. */
  lemma {:induction false} RebuildIs(list: seq<Confirmation>, h: string)
    ensures h in Rebuild(list) <==> exists c :: c in list && Key(c) == h
    ensures h in Rebuild(list) ==> exists c :: c in list && Key(c) == h && c.actionRef == Rebuild(list)[h]
  {
    if list != [] {
      RebuildIs(list[..|list| - 1], h);
      SnocIn(list);
      hide Key;
    }
  }

  lemma {:induction false} LoadUnique(list: seq<Confirmation>)
    ensures UniqueActions(Load(list))
  {
    if list != [] {
      LoadUnique(list[..|list| - 1]);
      PutEffect(Load(list[..|list| - 1]), list[|list| - 1]);
      hide UniqueActions, Put;
    }
  }

  /** A stored map loads as it was, in the same order. */
  lemma {:induction false} LoadRoundTrip(list: seq<Confirmation>)
    requires UniqueActions(list)
    ensures Load(list) == list
  {
    if list != [] {
      var init, last := list[..|list| - 1], list[|list| - 1];
      assert UniqueActions(init);
      assert forall x :: x in init ==> x.actionRef != last.actionRef;
      hide UniqueActions, OrderedMap.Put;
      LoadRoundTrip(init);
      OrderedMap.PutNew(init, ActionOf, last);
      assert list == init + [last];
      assert Load(list) == Put(Load(init), last);
    }
  }

  /** Of several stored confirmations of an action the last is loaded. */
  lemma LoadKeepsLast(list: seq<Confirmation>, c: Confirmation, actionRef: string)
    ensures Get(Load(list + [c]), actionRef) == if actionRef == c.actionRef then Some(c) else Get(Load(list), actionRef)
  {
    assert (list + [c])[..|list|] == list;
    OrderedMap.PutGet(Load(list), ActionOf, c, actionRef);
    hide OrderedMap.Get, OrderedMap.Put;
  }

  lemma StartedShape(config: Config, file: Option<seq<Confirmation>>, failures: nat)
    ensures var st := Started(config, file, failures);
            UniqueActions(st.confirmations) && st.txHashes == Rebuild(st.confirmations)
  {
    if config.persistent && file.Some? {
      LoadUnique(file.value);
    }
    hide Load, Rebuild;
  }

  lemma RebuiltConsistent(st: State)
    requires UniqueActions(st.confirmations) && st.txHashes == Rebuild(st.confirmations)
    ensures Consistent(st) <==> DistinctHashes(st.confirmations)
  {
    hide UniqueActions, Rebuild, Key;
    forall c | c in st.confirmations
      ensures Key(c) in st.txHashes
      ensures exists d :: d in st.confirmations && Key(d) == Key(c) && d.actionRef == st.txHashes[Key(c)]
    {
      RebuildIs(st.confirmations, Key(c));
    }
  }

  /** Whatever the file holds, the service starts consistent exactly when no two loaded actions share a transaction. */
  lemma StartedConsistent(config: Config, file: Option<seq<Confirmation>>, failures: nat)
    ensures Consistent(Started(config, file, failures)) <==>
            DistinctHashes(Started(config, file, failures).confirmations)
  {
    StartedShape(config, file, failures);
    hide Started, Consistent, DistinctHashes, UniqueActions;
    RebuiltConsistent(Started(config, file, failures));
  }

  /** Restarting keeps the confirmations and consistency; the index keeps just the current transactions. */
  lemma RestartConsistent(config: Config, st: State, failures: nat)
    requires Consistent(st) && FileCurrent(config, st)
    ensures var after := Started(config, st.file, failures);
            && Consistent(after) && FileCurrent(config, after)
            && (config.persistent ==> after.confirmations == st.confirmations)
            && (config.persistent ==> after.txHashes == map h | h in st.txHashes && InUse(st, h) :: st.txHashes[h])
  {
    var after := Started(config, st.file, failures);
    if config.persistent {
      LoadRoundTrip(st.confirmations);
      assert after.confirmations == st.confirmations;
      RebuildOfConsistent(st);
    }
    StartedConsistent(config, st.file, failures);
    hide UniqueActions, Load, Rebuild, Lower;
  }

  /** A current confirmation uses the transaction. */
  predicate InUse(st: State, h: string) {
    exists c :: c in st.confirmations && Key(c) == h
  }

  lemma RebuildOfConsistent(st: State)
    requires Consistent(st)
    ensures Rebuild(st.confirmations) == map h | h in st.txHashes && InUse(st, h) :: st.txHashes[h]
  {
    hide UniqueActions, Rebuild, Key;
    forall h: string
      ensures h in Rebuild(st.confirmations) <==> h in st.txHashes && InUse(st, h)
      ensures h in Rebuild(st.confirmations) ==> Rebuild(st.confirmations)[h] == st.txHashes[h]
    {
      RebuildIs(st.confirmations, h);
    }
  }

  /** A restart keeps every owner exactly when every transaction of a named action is still in use. */
  lemma RestartKeepsOwners(config: Config, st: State, failures: nat)
    requires Consistent(st) && FileCurrent(config, st) && config.persistent
    ensures KeepsOwners(st.txHashes, Started(config, st.file, failures).txHashes) <==>
            forall h :: h in st.txHashes && st.txHashes[h] != "" ==> InUse(st, h)
  {
    RestartConsistent(config, st, failures);
    hide Consistent, Started, InUse;
  }

  /** After a restart a payment is refused as a replay exactly when it was before and its transaction is still in use. */
  lemma RestartForgets(config: Config, st: State, failures: nat, e: Execution)
    requires Consistent(st) && FileCurrent(config, st) && config.persistent
    ensures IsReplay(Started(config, st.file, failures), e) <==> IsReplay(st, e) && InUse(st, Lower(e.txHash))
  {
    RestartConsistent(config, st, failures);
    hide Consistent, Started, InUse, Lower;
  }
}
