/**
 Settlement notifications: the outbox, the retry loop of one delivery cycle, and redelivery with
 exponential backoff. Times are integer milliseconds. The n-th clock reading and the answer to
 the n-th POST come from outside and may be anything.
 */
module Outbox {
  import opened Prelude
  import opened Text
  import OrderedMap

  type Id = string

  datatype Notification = Notification(notificationId: Id, eventType: string, settledAt: int)

  /** A receiver accepts a POST, refuses it, or does not answer (fetch throws). */
  datatype Answer = Accepted(status: int) | Refused(status: int, text: string) | Unreachable(message: string)

  datatype World = World(clock: nat -> int, receiver: nat -> Answer)

  /** One POST as sent, with the headers that identify it. */
  datatype Post = Post(url: string, notificationId: Id, idempotencyKey: Id, attempt: nat, eventType: string)

  datatype Status = Delivered | Failed | Skipped | DeadLettered

  datatype Entry = Entry(
    notificationId: Id,
    eventType: string,
    targetUrl: Option<string>,
    payload: Notification,
    idempotencyKey: Id,
    attempts: nat,
    status: Status,
    redeliveryCount: nat,
    createdAt: int,
    updatedAt: int,
    lastAttemptAt: int,
    nextAttemptAt: Option<int>,
    deadLetteredAt: Option<int>,
    responseStatus: Option<int>,
    errorMessage: Option<string>)

  // ---- options ----

  datatype Options = Options(
    maxAttempts: Option<int>,
    redeliveryBaseDelayMs: Option<int>,
    redeliveryBackoffMultiplier: Option<int>,
    maxRedeliveryCycles: Option<int>)

  datatype Limits = Limits(attempts: nat, baseDelay: nat, multiplier: nat, cycles: nat) {
    predicate Valid() { attempts >= 1 && multiplier >= 1 && cycles >= 1 }
  }

  function AtLeast(lower: int, given: Option<int>, default: int): (r: int)
    ensures r >= lower
  {
    var v := if given.Some? then given.value else default;
    if v < lower then lower else v
  }

  function Normalize(o: Options): (limits: Limits)
    ensures limits.Valid()
  {
    Limits(AtLeast(1, o.maxAttempts, 1), AtLeast(0, o.redeliveryBaseDelayMs, 1000),
           AtLeast(1, o.redeliveryBackoffMultiplier, 2), AtLeast(1, o.maxRedeliveryCycles, 3))
  }

  // ---- the store: a map in insertion order ----

  function EntryId(e: Entry): Id { e.notificationId }

  function Put(entries: seq<Entry>, e: Entry): seq<Entry> {
    OrderedMap.Put(entries, EntryId, e)
  }

  function Find(entries: seq<Entry>, id: Id): Option<Entry> {
    OrderedMap.Get(entries, EntryId, id)
  }

  /** A present, non-empty URL: the source tests truthiness. */
  predicate Given(url: Option<string>) {
    url.Some? && url.value != ""
  }

  // ---- one delivery cycle ----

  datatype Cycle = Cycle(sent: seq<Post>, attempts: nat, accepted: bool, lastStatus: Option<int>, lastError: Option<string>)

  function NewPost(url: string, n: Notification, attempt: nat): Post {
    Post(url, n.notificationId, n.notificationId, attempt, n.eventType)
  }

  function RefusalText(status: int, text: string): string {
    "Settlement callback failed: [" + (if status < 0 then "-" + Digits(-status, 10) else Digits(status, 10)) + "] " + text
  }

  /** The retry loop from `attempts` on. */
  function Deliver(w: World, url: string, n: Notification, limit: nat, c: Cycle): Cycle
    decreases limit - c.attempts
  {
    if c.attempts >= limit then c
    else
      var sent, attempts := c.sent + [NewPost(url, n, c.attempts + 1)], c.attempts + 1;
      match w.receiver(|c.sent|)
      case Accepted(status) => Cycle(sent, attempts, true, Some(status), c.lastError)
      case Refused(status, text) =>
        Deliver(w, url, n, limit, Cycle(sent, attempts, false, Some(status), Some(RefusalText(status, text))))
      case Unreachable(message) =>
        Deliver(w, url, n, limit, Cycle(sent, attempts, false, c.lastStatus, Some(message)))
  }

  // ---- posting, redelivering, notifying ----

  /** `readings` counts the clock readings made so far, `sent` is everything ever posted. */
  datatype State = State(entries: seq<Entry>, readings: nat, sent: seq<Post>)

  /** What is known of a notification when a cycle starts. */
  datatype History = History(attempts: nat, createdAt: Option<int>, redeliveryCount: nat)

  const NEW := History(0, None, 0)

  function Known(e: Entry): History {
    History(e.attempts, Some(e.createdAt), e.redeliveryCount)
  }

  datatype Posted = Posted(state: State, entry: Entry, threw: bool)

  function PostNotification(limits: Limits, w: World, st: State, url: string, n: Notification, h: History): Posted {
    var createdAt, r := if h.createdAt.Some? then h.createdAt.value else w.clock(st.readings),
                        if h.createdAt.Some? then st.readings else st.readings + 1;
    var now := w.clock(r);
    var c := Deliver(w, url, n, h.attempts + limits.attempts, Cycle(st.sent, h.attempts, false, None, None));
    if c.accepted then
      var e := Entry(n.notificationId, n.eventType, Some(url), n, n.notificationId, c.attempts, Delivered,
                     h.redeliveryCount, createdAt, now, now, None, None, c.lastStatus, None);
      Posted(State(Put(st.entries, e), r + 1, c.sent), e, false)
    else
      var count := h.redeliveryCount + 1;
      var dead := count >= limits.cycles;
      var next := if dead then None
                  else Some(w.clock(r + 1) + limits.baseDelay * Pow(limits.multiplier, count - 1));
      var e := Entry(n.notificationId, n.eventType, Some(url), n, n.notificationId, c.attempts,
                     if dead then DeadLettered else Failed, count, createdAt, now, now, next,
                     if dead then Some(now) else None, c.lastStatus,
                     Some(if c.lastError.Some? then c.lastError.value else "Settlement callback failed"));
      Posted(State(Put(st.entries, e), if dead then r + 1 else r + 2, c.sent), e, true)
  }

  function SkippedEntry(n: Notification, message: string): Entry {
    Entry(n.notificationId, n.eventType, None, n, n.notificationId, 0, Skipped, 0,
          n.settledAt, n.settledAt, n.settledAt, None, None, None, Some(message))
  }

  datatype Outcome<T> = Returned(value: T) | Threw

  datatype Ran<T> = Ran(state: State, outcome: Outcome<T>)

  /** `notify*`: `callbackUrl` is what the recipient's DID resolves to. */
  function Notify(limits: Limits, w: World, st: State, n: Notification, callbackUrl: Option<string>, message: string): Ran<()> {
    if !Given(callbackUrl) then Ran(st.(entries := Put(st.entries, SkippedEntry(n, message))), Returned(()))
    else
      var p := PostNotification(limits, w, st, callbackUrl.value, n, NEW);
      Ran(p.state, if p.threw then Threw else Returned(()))
  }

  function Redeliver(limits: Limits, w: World, st: State, id: Id): Ran<()> {
    match Find(st.entries, id)
    case None => Ran(st, Threw)
    case Some(e) =>
      if !Given(e.targetUrl) then Ran(st, Threw)
      else
        var p := PostNotification(limits, w, st, e.targetUrl.value, e.payload, Known(e));
        Ran(p.state, if p.threw then Threw else Returned(()))
  }

  predicate IsDue(e: Entry, now: int) {
    e.status == Failed && (e.nextAttemptAt.None? || e.nextAttemptAt.value <= now)
  }

  function Due(entries: seq<Entry>, now: int): seq<Entry> {
    if entries == [] then []
    else (if IsDue(entries[0], now) then [entries[0]] else []) + Due(entries[1..], now)
  }

  /** The loop over the due entries: the first that fails again ends the pass. */
  function PassLoop(limits: Limits, w: World, st: State, due: seq<Entry>): Ran<()>
    decreases due
  {
    if due == [] then Ran(st, Returned(()))
    else if !Given(due[0].targetUrl) then PassLoop(limits, w, st, due[1..])
    else
      var p := PostNotification(limits, w, st, due[0].targetUrl.value, due[0].payload, Known(due[0]));
      if p.threw then Ran(p.state, Threw) else PassLoop(limits, w, p.state, due[1..])
  }

  /** The entries a pass started now would take up. */
  function DueNow(w: World, st: State): seq<Entry> {
    Due(st.entries, w.clock(st.readings))
  }

  function Pass(limits: Limits, w: World, st: State): Ran<nat> {
    var due := DueNow(w, st);
    var looped := PassLoop(limits, w, st.(readings := st.readings + 1), due);
    Ran(looped.state, if looped.outcome.Threw? then Threw else Returned(|due|))
  }
}
