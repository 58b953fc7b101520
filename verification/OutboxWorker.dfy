/**
 The single-flight outbox worker: the steps it takes between awaits, in any interleaving.

 A pass is numbered when it starts. `tickets` holds, for every tick in the order of the calls,
 the pass whose promise the call returned, and `waits` what each stop awaits.
 */
module OutboxWorker {
  import opened Prelude
  import Outbox

  /** What became of the promise of a pass. */
  datatype Settled = Fulfilled(count: nat) | Rejected(error: string)

  datatype Stage = Redelivering | Handling(error: string) | Ended(outcome: Settled)

  /** A call of `onError` either throws at once or returns something to await. */
  datatype Reaction = Awaited | Thrown(error: string)

  /** A call of the port either throws at once or returns a promise. */
  datatype Call = Pending | ThrewAtOnce(error: string)

  datatype Status = Status(
    running: bool, intervalMs: nat, lastRunAt: Option<int>, lastResult: Option<nat>, lastError: Option<string>)

  datatype State = State(
    timer: bool, inFlight: Option<nat>, status: Status, passes: seq<Stage>, tickets: seq<nat>, waits: seq<Option<nat>>)

  datatype Event =
    | Start
    | Stop
    | TimerTick(time: int, call: Call, reaction: Reaction)
    | ManualTick(time: int, call: Call, reaction: Reaction)
    | PortSettles(pass: nat, result: Settled, reaction: Reaction)
    | HandlerSettles(pass: nat, failure: Option<string>)

  function Initial(intervalMs: Option<int>): State {
    State(false, None, Status(false, Outbox.AtLeast(10, intervalMs, 1000), None, None, None), [], [], [])
  }

  /** The stage a pass is in once its port call has failed. */
  function AfterFailure(hasHandler: bool, error: string, reaction: Reaction): Stage {
    if !hasHandler then Ended(Rejected(error))
    else match reaction
      case Awaited => Handling(error)
      case Thrown(thrown) => Ended(Rejected(thrown))
  }

  function Tick(hasHandler: bool, st: State, time: int, call: Call, reaction: Reaction): State {
    if st.inFlight.Some? then st.(tickets := st.tickets + [st.inFlight.value])
    else
      var stage := match call case Pending => Redelivering case ThrewAtOnce(e) => AfterFailure(hasHandler, e, reaction);
      var lastError := match call case Pending => st.status.lastError case ThrewAtOnce(e) => Some(e);
      // The assignment of the promise comes after whatever ran at once, its `finally` included.
      st.(inFlight := Some(|st.passes|),
          status := st.status.(lastRunAt := Some(time), lastError := lastError),
          passes := st.passes + [stage],
          tickets := st.tickets + [|st.passes|])
  }

  /** Pass `p` moves to `stage`; its `finally` clears `inFlight`. */
  function Move(st: State, p: nat, stage: Stage): State
    requires p < |st.passes|
  {
    st.(passes := st.passes[p := stage], inFlight := if stage.Ended? then None else st.inFlight)
  }

  function Settle(hasHandler: bool, st: State, p: nat, result: Settled, reaction: Reaction): State
    requires p < |st.passes|
  {
    match result
    case Fulfilled(n) =>
      Move(st.(status := st.status.(lastResult := Some(n), lastError := None)), p, Ended(result))
    case Rejected(e) =>
      Move(st.(status := st.status.(lastError := Some(e))), p, AfterFailure(hasHandler, e, reaction))
  }

  function HandlerDone(st: State, p: nat, failure: Option<string>): State
    requires p < |st.passes| && st.passes[p].Handling?
  {
    Move(st, p, Ended(Rejected(if failure.Some? then failure.value else st.passes[p].error)))
  }

  /** An event that cannot happen in a state (a tick of no timer, a pass not waiting for it) leaves it alone. */
  function Step(hasHandler: bool, st: State, event: Event): State {
    match event
    case Start => if st.timer then st else st.(timer := true, status := st.status.(running := true))
    case Stop =>
      st.(timer := false, status := st.status.(running := false), waits := st.waits + [st.inFlight])
    case TimerTick(time, call, reaction) => if st.timer then Tick(hasHandler, st, time, call, reaction) else st
    case ManualTick(time, call, reaction) => Tick(hasHandler, st, time, call, reaction)
    case PortSettles(p, result, reaction) =>
      if p < |st.passes| && st.passes[p].Redelivering? then Settle(hasHandler, st, p, result, reaction) else st
    case HandlerSettles(p, failure) =>
      if p < |st.passes| && st.passes[p].Handling? then HandlerDone(st, p, failure) else st
  }

  function Run(hasHandler: bool, st: State, events: seq<Event>): State
    decreases events
  {
    if events == [] then st else Run(hasHandler, Step(hasHandler, st, events[0]), events[1..])
  }

  class SettlementNotificationOutboxWorker {
    const hasHandler: bool
    var timer: bool
    var inFlight: Option<nat>
    var statusState: Status
    var passes: seq<Stage>
    var tickets: seq<nat>
    var waits: seq<Option<nat>>

    function View(): State
      reads this
    {
      State(timer, inFlight, statusState, passes, tickets, waits)
    }

    constructor (intervalMs: Option<int>, hasHandler: bool)
      ensures this.hasHandler == hasHandler && View() == Initial(intervalMs)
    {
      this.hasHandler := hasHandler;
      timer, inFlight, passes, tickets, waits := false, None, [], [], [];
      statusState := Status(false, Outbox.AtLeast(10, intervalMs, 1000), None, None, None);
    }

    method StartTimer()
      modifies this
      ensures View() == Step(hasHandler, old(View()), Start)
    {
      if timer {
        return;
      }
      statusState := statusState.(running := true);
      timer := true;
    }

    method StopTimer()
      modifies this
      ensures View() == Step(hasHandler, old(View()), Stop)
    {
      if timer {
        timer := false;
      }
      statusState := statusState.(running := false);
      waits := waits + [inFlight];
    }

    /** `finally { this.inFlight = undefined }`, the pass's promise settling with `outcome`. */
    method EndPass(p: nat, outcome: Settled)
      requires p < |passes|
      modifies this`passes, this`inFlight
      ensures inFlight == None && passes == old(passes)[p := Ended(outcome)]
    {
      inFlight := None;
      passes := passes[p := Ended(outcome)];
    }

    /** The `catch` block, up to the await of `onError`. */
    method CatchError(p: nat, error: string, reaction: Reaction)
      requires p < |passes|
      modifies this`passes, this`inFlight, this`statusState
      ensures View() == Move(old(View()).(status := old(statusState).(lastError := Some(error))), p,
                             AfterFailure(hasHandler, error, reaction))
    {
      statusState := statusState.(lastError := Some(error));
      if hasHandler {
        match reaction {
          case Awaited => passes := passes[p := Handling(error)];
          case Thrown(thrown) => EndPass(p, Rejected(thrown));
        }
      } else {
        EndPass(p, Rejected(error));
      }
    }

    method TickNow(time: int, call: Call, reaction: Reaction) returns (pass: nat)
      modifies this
      ensures View() == Step(hasHandler, old(View()), ManualTick(time, call, reaction))
      ensures old(timer) ==> View() == Step(hasHandler, old(View()), TimerTick(time, call, reaction))
      ensures tickets == old(tickets) + [pass]
    {
      if inFlight.Some? {
        pass := inFlight.value;
      } else {
        pass := |passes|;
        statusState := statusState.(lastRunAt := Some(time));
        passes := passes + [Redelivering];
        if call.ThrewAtOnce? {
          CatchError(pass, call.error, reaction);
        }
        inFlight := Some(pass);
      }
      tickets := tickets + [pass];
    }

    /** The pass resumes with what the port's promise came to. */
    method PortSettled(p: nat, result: Settled, reaction: Reaction)
      requires p < |passes| && passes[p].Redelivering?
      modifies this
      ensures View() == Step(hasHandler, old(View()), PortSettles(p, result, reaction))
    {
      match result {
        case Fulfilled(n) =>
          statusState := statusState.(lastResult := Some(n), lastError := None);
          EndPass(p, result);
        case Rejected(error) =>
          CatchError(p, error, reaction);
      }
    }

    /** The pass resumes after `await this.onError(error)`. */
    method HandlerSettled(p: nat, failure: Option<string>)
      requires p < |passes| && passes[p].Handling?
      modifies this
      ensures View() == Step(hasHandler, old(View()), HandlerSettles(p, failure))
    {
      EndPass(p, Rejected(if failure.Some? then failure.value else passes[p].error));
    }
  }

  // ---- single flight ----

  predicate Open(st: State, p: nat) {
    p < |st.passes| && !st.passes[p].Ended?
  }

  /** `inFlight` is set exactly while a pass is open, and to that pass. */
  ghost predicate InFlightIsOpen(st: State) {
    forall p: nat :: Open(st, p) <==> st.inFlight == Some(p)
  }

  /** Only the newest pass can be open, and `inFlight` never names a pass that has not started. */
  ghost predicate OneAtMost(st: State) {
    && (forall p: nat :: Open(st, p) ==> st.inFlight == Some(p))
    && (st.inFlight.Some? ==> st.inFlight.value + 1 == |st.passes|)
    && (forall i :: 0 <= i < |st.tickets| ==> st.tickets[i] < |st.passes|)
  }

  /** The event starts a pass that is over before its promise is stored. */
  predicate EndsAtOnce(hasHandler: bool, st: State, event: Event) {
    && (event.ManualTick? || (event.TimerTick? && st.timer))
    && st.inFlight.None?
    && event.call.ThrewAtOnce?
    && (!hasHandler || event.reaction.Thrown?)
  }

  /** One step, from any reachable state: never two passes, and the flag stays right unless the port throws at once. */
  lemma StepSingleFlight(hasHandler: bool, st: State, event: Event)
    requires OneAtMost(st)
    ensures OneAtMost(Step(hasHandler, st, event))
    ensures InFlightIsOpen(st) ==>
              (InFlightIsOpen(Step(hasHandler, st, event)) <==> !EndsAtOnce(hasHandler, st, event))
  {
    var st' := Step(hasHandler, st, event);
    match event {
      case PortSettles(q, _, _) => assert q < |st.passes| && st.passes[q].Redelivering? ==> Open(st, q);
      case HandlerSettles(q, _) => assert q < |st.passes| && st.passes[q].Handling? ==> Open(st, q);
      case _ =>
    }
    forall p: nat | Open(st', p)
      ensures p < |st.passes| ==> Open(st, p)
      ensures st'.inFlight == Some(p)
    {
      if p < |st.passes| {
        assert Open(st, p);
      }
    }
    if EndsAtOnce(hasHandler, st, event) {
      assert !Open(st', |st.passes|) && st'.inFlight == Some(|st.passes|);
    }
  }

  /** No event of the run is a pass over before its promise is stored. */
  predicate NoneEndsAtOnce(hasHandler: bool, st: State, events: seq<Event>)
    decreases events
  {
    events == [] ||
    (!EndsAtOnce(hasHandler, st, events[0]) && NoneEndsAtOnce(hasHandler, Step(hasHandler, st, events[0]), events[1..]))
  }

  ghost predicate InFlightIsOpenThroughout(hasHandler: bool, st: State, events: seq<Event>)
    decreases events
  {
    InFlightIsOpen(st) &&
    (events == [] || InFlightIsOpenThroughout(hasHandler, Step(hasHandler, st, events[0]), events[1..]))
  }

  /** For every interleaving: at most one pass at a time, and `inFlight` right throughout exactly under the condition. */
  lemma {:induction false} RunSingleFlight(hasHandler: bool, st: State, events: seq<Event>)
    requires OneAtMost(st) && InFlightIsOpen(st)
    ensures InFlightIsOpenThroughout(hasHandler, st, events) <==> NoneEndsAtOnce(hasHandler, st, events)
    ensures OneAtMost(Run(hasHandler, st, events))
    decreases events
  {
    hide OneAtMost, InFlightIsOpen, Step, EndsAtOnce;
    if events != [] {
      StepSingleFlight(hasHandler, st, events[0]);
      if EndsAtOnce(hasHandler, st, events[0]) {
        RunOneAtMost(hasHandler, Step(hasHandler, st, events[0]), events[1..]);
      } else {
        RunSingleFlight(hasHandler, Step(hasHandler, st, events[0]), events[1..]);
      }
    }
  }

  lemma {:induction false} RunOneAtMost(hasHandler: bool, st: State, events: seq<Event>)
    requires OneAtMost(st)
    ensures OneAtMost(Run(hasHandler, st, events))
    decreases events
  {
    hide OneAtMost, InFlightIsOpen, Step;
    if events != [] {
      StepSingleFlight(hasHandler, st, events[0]);
      RunOneAtMost(hasHandler, Step(hasHandler, st, events[0]), events[1..]);
    }
  }

  /** At most one pass is ever open, whatever the interleaving and however the port behaves. */
  lemma NeverTwo(hasHandler: bool, intervalMs: Option<int>, events: seq<Event>, p: nat, q: nat)
    requires Open(Run(hasHandler, Initial(intervalMs), events), p) && Open(Run(hasHandler, Initial(intervalMs), events), q)
    ensures p == q
  {
    RunOneAtMost(hasHandler, Initial(intervalMs), events);
  }

  // ---- what a tick receives ----

  /** A tick's result, once its pass has ended. */
  function ResultOf(st: State, tick: nat): Option<Settled>
    requires tick < |st.tickets|
  {
    if st.tickets[tick] < |st.passes| && st.passes[st.tickets[tick]].Ended?
    then Some(st.passes[st.tickets[tick]].outcome) else None
  }

  /** Nothing that has been decided changes: tickets stay, and an ended pass keeps its outcome. */
  ghost predicate Extends(st: State, st': State) {
    && |st.passes| <= |st'.passes|
    && st.tickets <= st'.tickets
    && (forall p :: 0 <= p < |st.passes| && st.passes[p].Ended? ==> st'.passes[p] == st.passes[p])
  }

  lemma {:induction false} RunExtends(hasHandler: bool, st: State, events: seq<Event>)
    ensures Extends(st, Run(hasHandler, st, events))
    decreases events
  {
    if events != [] {
      var st1 := Step(hasHandler, st, events[0]);
      assert Extends(st, st1);
      RunExtends(hasHandler, st1, events[1..]);
    }
  }

  predicate IsTick(st: State, event: Event) {
    event.ManualTick? || (event.TimerTick? && st.timer)
  }

  /**
   Every tick issued while a pass is open starts nothing and, when that pass ends, has that
   pass's outcome, as has every other tick issued while it was open; it keeps it from then on.
   */
  lemma TicksShareTheOutcome(hasHandler: bool, st: State, event: Event, p: nat, later: seq<Event>)
    requires OneAtMost(st) && Open(st, p) && IsTick(st, event)
    ensures var st1 := Step(hasHandler, st, event);
            && st1.passes == st.passes
            && var last := Run(hasHandler, st1, later);
               && |st.tickets| < |last.tickets| && p < |last.passes|
               && ResultOf(last, |st.tickets|) == if last.passes[p].Ended? then Some(last.passes[p].outcome) else None
  {
    RunExtends(hasHandler, Step(hasHandler, st, event), later);
    hide Run;
  }

  /** While the flag is right, a tick starts a pass exactly when none is open. */
  lemma TickStartsWhenIdle(hasHandler: bool, st: State, event: Event)
    requires OneAtMost(st) && InFlightIsOpen(st) && IsTick(st, event)
    ensures |Step(hasHandler, st, event).passes| == |st.passes| + 1 <==> forall p: nat :: !Open(st, p)
  {
    if st.inFlight.Some? {
      assert Open(st, st.inFlight.value);
    }
  }

  /** Neither a start nor a manual tick: what may still happen on its own once the worker is stopped. */
  predicate OnItsOwn(events: seq<Event>) {
    forall i :: 0 <= i < |events| ==> !events[i].Start? && !events[i].ManualTick?
  }

  lemma {:induction false} NoTimerNoPass(hasHandler: bool, st: State, events: seq<Event>)
    requires OneAtMost(st) && !st.timer && OnItsOwn(events)
    ensures var last := Run(hasHandler, st, events);
            |last.passes| == |st.passes| && OneAtMost(last) && forall p: nat :: Open(last, p) ==> Open(st, p)
    decreases events
  {
    if events != [] {
      var st1 := Step(hasHandler, st, events[0]);
      StepSingleFlight(hasHandler, st, events[0]);
      assert |st1.passes| == |st.passes| && !st1.timer && forall p: nat :: Open(st1, p) ==> Open(st, p);
      hide Step, Open, OneAtMost;
      NoTimerNoPass(hasHandler, st1, events[1..]);
    }
  }

  /** After a stop nothing starts on its own, so when the pass it awaits has ended, no pass is open. */
  lemma StopQuiesces(hasHandler: bool, st: State, events: seq<Event>)
    requires OneAtMost(st) && OnItsOwn(events)
    ensures var stopped := Step(hasHandler, st, Stop);
            var last := Run(hasHandler, stopped, events);
            && |last.passes| == |st.passes|
            && forall p: nat :: Open(last, p) ==> stopped.waits[|st.waits|] == Some(p)
  {
    StepSingleFlight(hasHandler, st, Stop);
    var stopped := Step(hasHandler, st, Stop);
    NoTimerNoPass(hasHandler, stopped, events);
    hide Run;
    assert forall p: nat :: Open(stopped, p) ==> Open(st, p);
  }

  /** A new worker is idle; its interval is a second unless one is given, and never below ten milliseconds. */
  lemma InitialIs(given: int)
    ensures Initial(None).status.intervalMs == 1000
    ensures Initial(Some(given)).status.intervalMs == if given >= 10 then given else 10
    ensures var st := Initial(Some(given)); !st.timer && !st.status.running && st.inFlight == None && st.passes == []
  {}

  /** A start enables the timer's ticks, which then do what a manual tick does, and a stop disables them. */
  lemma StartEnablesTicks(hasHandler: bool, st: State, time: int, call: Call, reaction: Reaction)
    ensures var started := Step(hasHandler, st, Start);
            && started.timer && (st.timer ==> started == st)
            && (!st.timer ==> started == st.(timer := true, status := st.status.(running := true)))
            && Step(hasHandler, started, TimerTick(time, call, reaction)) == Step(hasHandler, started, ManualTick(time, call, reaction))
    ensures var stopped := Step(hasHandler, st, Stop);
            && !stopped.timer && !stopped.status.running
            && Step(hasHandler, stopped, TimerTick(time, call, reaction)) == stopped
  {}

  /** What an idle tick starts: the next pass, awaiting the port unless the call threw, with the time of the run noted. */
  lemma IdleTickStarts(hasHandler: bool, st: State, time: int, call: Call, reaction: Reaction)
    requires st.inFlight.None?
    ensures var st1 := Step(hasHandler, st, ManualTick(time, call, reaction));
            && |st1.passes| == |st.passes| + 1 && st1.passes[..|st.passes|] == st.passes
            && st1.inFlight == Some(|st.passes|) && st1.tickets == st.tickets + [|st.passes|]
            && st1.status.lastRunAt == Some(time) && st1.status.lastResult == st.status.lastResult
            && match call
               case Pending => st1.passes[|st.passes|] == Redelivering && st1.status.lastError == st.status.lastError
               case ThrewAtOnce(e) =>
                 && st1.status.lastError == Some(e)
                 && st1.passes[|st.passes|] ==
                    if !hasHandler then Ended(Rejected(e))
                    else if reaction == Awaited then Handling(e) else Ended(Rejected(reaction.error))
  {}

  /**
   How a pass ends: with the port's own result, or with its error, unless the error handler
   fails with another; the status says which, and no other pass is touched.
   */
  lemma PassEnds(hasHandler: bool, st: State, p: nat, result: Settled, reaction: Reaction, failure: Option<string>)
    requires p < |st.passes|
    ensures st.passes[p] == Redelivering ==>
              var st1 := Step(hasHandler, st, PortSettles(p, result, reaction));
              && |st1.passes| == |st.passes| && (forall q :: 0 <= q < |st.passes| && q != p ==> st1.passes[q] == st.passes[q])
              && match result
                 case Fulfilled(n) =>
                   && st1.passes[p] == Ended(result) && st1.inFlight == None
                   && st1.status.lastResult == Some(n) && st1.status.lastError == None
                 case Rejected(e) =>
                   && st1.status.lastError == Some(e) && st1.status.lastResult == st.status.lastResult
                   && (!hasHandler ==> st1.passes[p] == Ended(result) && st1.inFlight == None)
                   && (hasHandler && reaction == Awaited ==> st1.passes[p] == Handling(e) && st1.inFlight == st.inFlight)
                   && (hasHandler && reaction.Thrown? ==> st1.passes[p] == Ended(Rejected(reaction.error)) && st1.inFlight == None)
    ensures st.passes[p].Handling? ==>
              var st1 := Step(hasHandler, st, HandlerSettles(p, failure));
              && st1.passes[p] == Ended(Rejected(match failure case None => st.passes[p].error case Some(thrown) => thrown))
              && st1.inFlight == None && st1.status == st.status
  {}

  /** Start to end: the tick that started a pass receives the port's own result, whatever happens before it settles and after. */
  lemma TickGetsThePortsResult(hasHandler: bool, st: State, time: int, reaction: Reaction, before: seq<Event>,
                               result: Settled, after: seq<Event>)
    requires st.inFlight.None? && (result.Fulfilled? || !hasHandler)
    requires var waiting := Run(hasHandler, Step(hasHandler, st, ManualTick(time, Pending, reaction)), before);
             |st.passes| < |waiting.passes| && waiting.passes[|st.passes|] == Redelivering
    ensures var waiting := Run(hasHandler, Step(hasHandler, st, ManualTick(time, Pending, reaction)), before);
            var last := Run(hasHandler, Step(hasHandler, waiting, PortSettles(|st.passes|, result, reaction)), after);
            |st.tickets| < |last.tickets| && ResultOf(last, |st.tickets|) == Some(result)
  {
    var started := Step(hasHandler, st, ManualTick(time, Pending, reaction));
    var waiting := Run(hasHandler, started, before);
    var settled := Step(hasHandler, waiting, PortSettles(|st.passes|, result, reaction));
    RunExtends(hasHandler, started, before);
    RunExtends(hasHandler, settled, after);
    PassEnds(hasHandler, waiting, |st.passes|, result, reaction, None);
    assert settled.tickets == waiting.tickets;
    hide Run, Step;
  }

  // ---- the port that throws at once ----

  /** `inFlight` names a pass that is over. */
  predicate Wedged(st: State) {
    st.inFlight.Some? && st.inFlight.value < |st.passes| && st.passes[st.inFlight.value].Ended?
  }

  /** The failing family is real: one tick of a fresh worker whose port throws at once. */
  lemma WedgedByOneTick(hasHandler: bool, intervalMs: Option<int>, event: Event)
    requires EndsAtOnce(hasHandler, Initial(intervalMs), event)
    ensures Wedged(Step(hasHandler, Initial(intervalMs), event))
  {}

  lemma WedgedStep(hasHandler: bool, st: State, event: Event)
    requires Wedged(st) && OneAtMost(st)
    ensures var st1 := Step(hasHandler, st, event);
            && Wedged(st1) && OneAtMost(st1) && st1.inFlight == st.inFlight && st1.passes == st.passes
            && (st1.tickets == st.tickets || st1.tickets == st.tickets + [st.inFlight.value])
  {
    StepSingleFlight(hasHandler, st, event);
    match event {
      case PortSettles(p, _, _) => assert !Open(st, p);
      case HandlerSettles(p, _) => assert !Open(st, p);
      case _ =>
    }
  }

  /**
   A wedged worker never redelivers again: no later pass starts, and every later tick gets the
   failure of the pass that wedged it.
   */
  lemma {:induction false} WedgedForGood(hasHandler: bool, st: State, events: seq<Event>)
    requires Wedged(st) && OneAtMost(st)
    ensures var last := Run(hasHandler, st, events);
            && Wedged(last) && last.inFlight == st.inFlight && last.passes == st.passes
            && forall i :: |st.tickets| <= i < |last.tickets| ==> ResultOf(last, i) == Some(st.passes[st.inFlight.value].outcome)
    decreases events
  {
    if events != [] {
      var st1 := Step(hasHandler, st, events[0]);
      RunExtends(hasHandler, st1, events[1..]);
      WedgedStep(hasHandler, st, events[0]);
      hide Step;
      WedgedForGood(hasHandler, st1, events[1..]);
      var last := Run(hasHandler, st1, events[1..]);
      forall i | |st.tickets| <= i < |last.tickets|
        ensures ResultOf(last, i) == Some(st.passes[st.inFlight.value].outcome)
      {
        if i < |st1.tickets| {
          assert last.tickets[i] == st1.tickets[i] == st.inFlight.value;
        }
      }
    }
  }
}
