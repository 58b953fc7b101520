/** The notification port over its in-memory outbox store, loop by loop. */
module OutboxPort {
  import opened Prelude
  import opened Text
  import opened Outbox
  import OP = OutboxProofs
  import PP = OutboxPassProofs

  class InMemorySettlementNotificationOutboxStore {
    var entries: seq<Entry>

    constructor ()
      ensures entries == []
    {
      entries := [];
    }

    method GetOutboxEntry(id: Id) returns (e: Option<Entry>)
      ensures e == Find(entries, id)
    {
      return Find(entries, id);
    }

    method PutOutboxEntry(e: Entry)
      modifies this
      ensures entries == Put(old(entries), e)
    {
      entries := Put(entries, e);
    }
  }

  class HttpSettlementNotificationPort {
    const limits: Limits
    const world: World
    const outboxStore: InMemorySettlementNotificationOutboxStore
    var readings: nat
    var sent: seq<Post>

    function View(): State
      reads this, outboxStore
    {
      State(outboxStore.entries, readings, sent)
    }

    constructor (options: Options, world: World)
      ensures limits == Normalize(options) && this.world == world
      ensures fresh(outboxStore) && View() == State([], 0, [])
    {
      this.limits, this.world := Normalize(options), world;
      outboxStore := new InMemorySettlementNotificationOutboxStore();
      readings, sent := 0, [];
    }

    /** `this.now()`. */
    method Now() returns (time: int)
      modifies this`readings
      ensures time == world.clock(old(readings)) && readings == old(readings) + 1
    {
      time := world.clock(readings);
      readings := readings + 1;
    }

    method PostToReceiver(url: string, payload: Notification, h: History) returns (threw: bool)
      modifies this, outboxStore
      ensures var p := PostNotification(limits, world, old(View()), url, payload, h);
              View() == p.state && threw == p.threw
    {
      hide Put, Pow, Digits, RefusalText;
      var createdAt: int;
      if h.createdAt.Some? {
        createdAt := h.createdAt.value;
      } else {
        createdAt := Now();
      }
      var attempts, lastStatus, lastError := h.attempts, None, None;
      var maxAttemptsForInvocation := h.attempts + limits.attempts;
      var nowValue := Now();
      ghost var start := Cycle(sent, attempts, false, None, None);
      ghost var r := readings;
      while attempts < maxAttemptsForInvocation
        invariant attempts <= maxAttemptsForInvocation
        invariant readings == r && outboxStore.entries == old(outboxStore.entries)
        invariant Deliver(world, url, payload, maxAttemptsForInvocation, start) ==
                  Deliver(world, url, payload, maxAttemptsForInvocation, Cycle(sent, attempts, false, lastStatus, lastError))
      {
        var answer := world.receiver(|sent|);
        attempts := attempts + 1;
        sent := sent + [NewPost(url, payload, attempts)];
        match answer {
          case Accepted(status) =>
            lastStatus := Some(status);
            outboxStore.PutOutboxEntry(
              Entry(payload.notificationId, payload.eventType, Some(url), payload, payload.notificationId, attempts,
                    Delivered, h.redeliveryCount, createdAt, nowValue, nowValue, None, None, lastStatus, None));
            return false;
          case Refused(status, text) =>
            lastStatus := Some(status);
            lastError := Some(RefusalText(status, text));
          case Unreachable(message) =>
            lastError := Some(message);
        }
      }
      var redeliveryCount := h.redeliveryCount + 1;
      var deadLettered := redeliveryCount >= limits.cycles;
      var nextAttemptAt := None;
      if !deadLettered {
        var time := Now();
        nextAttemptAt := Some(time + limits.baseDelay * Pow(limits.multiplier, redeliveryCount - 1));
      }
      outboxStore.PutOutboxEntry(
        Entry(payload.notificationId, payload.eventType, Some(url), payload, payload.notificationId, attempts,
              if deadLettered then DeadLettered else Failed, redeliveryCount, createdAt, nowValue, nowValue,
              nextAttemptAt, if deadLettered then Some(nowValue) else None, lastStatus,
              Some(if lastError.Some? then lastError.value else "Settlement callback failed")));
      return true;
    }

    method NotifySettlement(n: Notification, callbackUrl: Option<string>, message: string) returns (outcome: Outcome<()>)
      modifies this, outboxStore
      ensures Ran(View(), outcome) == Notify(limits, world, old(View()), n, callbackUrl, message)
      ensures limits.Valid() && OP.Counted(limits, old(outboxStore.entries)) ==> OP.Counted(limits, outboxStore.entries)
      ensures limits.Valid() && OP.AttemptsNumbered(old(View())) ==>
                (OP.AttemptsNumbered(View()) <==> OP.AttemptCount(old(outboxStore.entries), n.notificationId) == 0)
      ensures limits.Valid() && Given(callbackUrl) ==>
                PP.OneCycle(limits, world, old(View()), View(), callbackUrl.value, n, NEW)
    {
      if limits.Valid() && OP.Counted(limits, outboxStore.entries) {
        OP.NotifyCounted(limits, world, View(), n, callbackUrl, message);
      }
      if limits.Valid() {
        PP.NotifyPosts(limits, world, View(), n, callbackUrl, message);
      }
      if limits.Valid() && OP.AttemptsNumbered(View()) {
        OP.NotifyNumbered(limits, world, View(), n, callbackUrl, message);
      }
      hide OP.Counted, OP.AttemptsNumbered, OP.AttemptCount, PP.OneCycle, PP.OthersKept, Find, PostNotification, Put;
      if !Given(callbackUrl) {
        outboxStore.PutOutboxEntry(SkippedEntry(n, message));
        return Returned(());
      }
      var threw := PostToReceiver(callbackUrl.value, n, NEW);
      return if threw then Threw else Returned(());
    }

    method RedeliverNotification(id: Id) returns (outcome: Outcome<()>)
      modifies this, outboxStore
      ensures Ran(View(), outcome) == Redeliver(limits, world, old(View()), id)
    {
      var entry := outboxStore.GetOutboxEntry(id);
      if entry.None? || !Given(entry.value.targetUrl) {
        return Threw;
      }
      var threw := PostToReceiver(entry.value.targetUrl.value, entry.value.payload, Known(entry.value));
      return if threw then Threw else Returned(());
    }

    method RedeliverFailedNotifications() returns (outcome: Outcome<nat>)
      modifies this, outboxStore
      ensures Ran(View(), outcome) == Pass(limits, world, old(View()))
      ensures limits.Valid() && OP.Counted(limits, old(outboxStore.entries)) ==>
                && OP.Counted(limits, outboxStore.entries)
                && OP.Measure(limits, outboxStore.entries) + (if DueNow(world, old(View())) != [] then 1 else 0) <=
                   OP.Measure(limits, old(outboxStore.entries))
      ensures limits.Valid() && PP.Addressed(old(outboxStore.entries)) ==>
                exists cuts ::
                  PP.PassOver(limits, world, old(View()), DueNow(world, old(View())), View(), outcome.Threw?, cuts)
    {
      hide OP.Counted, OP.Measure, PP.Addressed, PP.PassOver, PostNotification, Put, Find, IsDue, Due;
      if limits.Valid() && OP.Counted(limits, outboxStore.entries) {
        OP.PassDrains(limits, world, View());
      }
      if limits.Valid() && PP.Addressed(outboxStore.entries) {
        ghost var cuts := PP.PassTakesPrefix(limits, world, View());
      }
      var now := Now();
      var failed := Due(outboxStore.entries, now);
      ghost var start := View();
      for i := 0 to |failed|
        invariant PassLoop(limits, world, start, failed) == PassLoop(limits, world, View(), failed[i..])
      {
        var entry := failed[i];
        assert failed[i..][1..] == failed[i + 1..];
        if Given(entry.targetUrl) {
          var threw := PostToReceiver(entry.targetUrl.value, entry.payload, Known(entry));
          if threw {
            return Threw;
          }
        }
      }
      return Returned(|failed|);
    }
  }
}
