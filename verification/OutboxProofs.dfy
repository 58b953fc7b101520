/** Counting, numbering, backoff and drain of the notification outbox. */
module OutboxProofs {
  import opened Prelude
  import opened Text
  import OrderedMap
  import opened Outbox

  // ---- the retry loop ----

  /** The posts of one cycle: attempts `from` + 1 to `upto`, in order. */
  function Numbered(url: string, n: Notification, from: nat, upto: nat): (posts: seq<Post>)
    requires from <= upto
    ensures |posts| == upto - from
    decreases upto
  {
    if from == upto then [] else Numbered(url, n, from, upto - 1) + [NewPost(url, n, upto)]
  }

  lemma {:induction false} NumberedJoin(url: string, n: Notification, from: nat, mid: nat, upto: nat)
    requires from <= mid <= upto
    ensures Numbered(url, n, from, mid) + Numbered(url, n, mid, upto) == Numbered(url, n, from, upto)
    decreases upto
  {
    if mid < upto {
      NumberedJoin(url, n, from, mid, upto - 1);
      assert Numbered(url, n, from, mid) + (Numbered(url, n, mid, upto - 1) + [NewPost(url, n, upto)]) ==
             (Numbered(url, n, from, mid) + Numbered(url, n, mid, upto - 1)) + [NewPost(url, n, upto)];
    } else {
      assert Numbered(url, n, mid, upto) == [];
    }
  }

  /** None of the posts number `from` to `upto` - 1, of all ever made, is accepted. */
  ghost predicate NoneAccepted(w: World, from: nat, upto: int) {
    forall i: nat :: from <= i < upto ==> !w.receiver(i).Accepted?
  }

  /**
   `d` is a finished cycle from `c`: consecutive attempt numbers, up to and including the first
   acceptance, or all that are allowed when there is none.
   */
  ghost predicate CycleFrom(w: World, url: string, n: Notification, limit: nat, c: Cycle, d: Cycle) {
    && c.attempts <= d.attempts <= limit
    && d.sent == c.sent + Numbered(url, n, c.attempts, d.attempts)
    && (if d.accepted
        then |d.sent| > |c.sent| && w.receiver(|d.sent| - 1).Accepted? && NoneAccepted(w, |c.sent|, |d.sent| - 1)
        else d.attempts == limit && NoneAccepted(w, |c.sent|, |d.sent|))
  }

  lemma {:induction false} DeliverAttempts(w: World, url: string, n: Notification, limit: nat, c: Cycle)
    requires !c.accepted && c.attempts <= limit
    ensures CycleFrom(w, url, n, limit, c, Deliver(w, url, n, limit, c))
    decreases limit - c.attempts
  {
    hide RefusalText;
    if c.attempts < limit {
      var sent := c.sent + [NewPost(url, n, c.attempts + 1)];
      assert Numbered(url, n, c.attempts, c.attempts + 1) == [NewPost(url, n, c.attempts + 1)];
      match w.receiver(|c.sent|)
      case Accepted(status) =>
      case Refused(status, text) =>
        var c1 := Cycle(sent, c.attempts + 1, false, Some(status), Some(RefusalText(status, text)));
        DeliverAttempts(w, url, n, limit, c1);
        CycleStep(w, url, n, limit, c, c1, Deliver(w, url, n, limit, c1));
      case Unreachable(message) =>
        var c1 := Cycle(sent, c.attempts + 1, false, c.lastStatus, Some(message));
        DeliverAttempts(w, url, n, limit, c1);
        CycleStep(w, url, n, limit, c, c1, Deliver(w, url, n, limit, c1));
    }
  }

  lemma CycleStep(w: World, url: string, n: Notification, limit: nat, c: Cycle, c1: Cycle, d: Cycle)
    requires !w.receiver(|c.sent|).Accepted?
    requires c1.attempts == c.attempts + 1 && c1.sent == c.sent + Numbered(url, n, c.attempts, c1.attempts)
    requires CycleFrom(w, url, n, limit, c1, d)
    ensures CycleFrom(w, url, n, limit, c, d)
  {
    NumberedJoin(url, n, c.attempts, c1.attempts, d.attempts);
    assert (c.sent + Numbered(url, n, c.attempts, c1.attempts)) + Numbered(url, n, c1.attempts, d.attempts) ==
           c.sent + (Numbered(url, n, c.attempts, c1.attempts) + Numbered(url, n, c1.attempts, d.attempts));
    hide Numbered;
  }

  // ---- one post, in full ----

  /** 1 + m + ... + m^(k-1). */
  function Geometric(m: nat, k: nat): nat {
    if k == 0 then 0 else Geometric(m, k - 1) + Pow(m, k - 1)
  }

  lemma {:induction false} GeometricSum(m: nat, k: nat)
    requires m >= 1
    ensures (m - 1) * Geometric(m, k) == Pow(m, k) - 1
  {
    if k > 0 {
      GeometricSum(m, k - 1);
      assert (m - 1) * (Geometric(m, k - 1) + Pow(m, k - 1)) ==
             (m - 1) * Geometric(m, k - 1) + (m - 1) * Pow(m, k - 1);
    }
  }

  ghost predicate Monotone(w: World) {
    forall i: nat, j: nat :: i <= j ==> w.clock(i) <= w.clock(j)
  }

  /** The status, cycle count and attempt count of an entry fit together. */
  predicate Classified(limits: Limits, e: Entry) {
    match e.status
    case Skipped => e.redeliveryCount == 0 && e.attempts == 0
    case Failed =>
      1 <= e.redeliveryCount < limits.cycles && e.attempts == e.redeliveryCount * limits.attempts && Given(e.targetUrl)
    case DeadLettered => e.redeliveryCount == limits.cycles && e.attempts == limits.cycles * limits.attempts
    case Delivered =>
      && e.redeliveryCount < limits.cycles
      && e.redeliveryCount * limits.attempts < e.attempts <= (e.redeliveryCount + 1) * limits.attempts
  }

  /** A failed entry waits, and a dead-lettered one has waited, the sum of its backoffs since creation. */
  predicate BackedOff(limits: Limits, e: Entry)
    requires limits.Valid()
  {
    && (e.status == Failed ==>
          e.nextAttemptAt.Some? &&
          e.nextAttemptAt.value >= e.createdAt + limits.baseDelay * Geometric(limits.multiplier, e.redeliveryCount))
    && (e.status == DeadLettered ==>
          e.deadLetteredAt.Some? &&
          e.deadLetteredAt.value >= e.createdAt + limits.baseDelay * Geometric(limits.multiplier, limits.cycles - 1))
  }

  /** What a cycle may start from: a new notification, or a failed entry that is due. */
  ghost predicate Ready(limits: Limits, w: World, st: State, h: History) {
    && h.redeliveryCount < limits.cycles && h.attempts == h.redeliveryCount * limits.attempts
    && (h.createdAt.None? ==> h.redeliveryCount == 0)
    && (h.createdAt.Some? ==>
          w.clock(st.readings) >= h.createdAt.value + limits.baseDelay * Geometric(limits.multiplier, h.redeliveryCount))
  }

  lemma CycleArithmetic(a: nat, c: nat, attempts: nat)
    requires attempts == c * a
    ensures attempts + a == (c + 1) * a
  {}

  lemma BackoffArithmetic(b: nat, m: nat, c: nat)
    ensures b * Geometric(m, c + 1) == b * Geometric(m, c) + b * Pow(m, c)
  {
    assert b * (Geometric(m, c) + Pow(m, c)) == b * Geometric(m, c) + b * Pow(m, c);
  }

  /**
   One cycle from a count below the limit: the entry it stores is classified again, its cycle
   count goes up exactly when the cycle fails, and it throws exactly when it fails.
   */
  lemma PostCounts(limits: Limits, w: World, st: State, url: string, n: Notification, h: History)
    requires limits.Valid() && url != ""
    requires h.redeliveryCount < limits.cycles && h.attempts == h.redeliveryCount * limits.attempts
    ensures var p := PostNotification(limits, w, st, url, n, h);
            && Classified(limits, p.entry) && p.entry.status != Skipped
            && (p.threw <==> p.entry.status != Delivered)
            && p.entry.redeliveryCount == h.redeliveryCount + (if p.threw then 1 else 0)
  {
    PostLog(limits, w, st, url, n, h);
    CycleArithmetic(limits.attempts, h.redeliveryCount, h.attempts);
    hide Deliver, Put, Pow, Numbered;
  }

  /** With a monotone clock, the stored entry is also backed off again. */
  lemma PostBacksOff(limits: Limits, w: World, st: State, url: string, n: Notification, h: History)
    requires limits.Valid() && Monotone(w) && Ready(limits, w, st, h)
    ensures BackedOff(limits, PostNotification(limits, w, st, url, n, h).entry)
  {
    BackoffArithmetic(limits.baseDelay, limits.multiplier, h.redeliveryCount);
    BackoffArithmetic(limits.baseDelay, limits.multiplier, 0);
    hide Deliver, Put, Pow;
  }

  /** What a post appends to the log and to the outbox, whatever the history is. */
  lemma PostLog(limits: Limits, w: World, st: State, url: string, n: Notification, h: History)
    requires limits.Valid()
    ensures var p := PostNotification(limits, w, st, url, n, h);
            && p.entry.notificationId == n.notificationId == p.entry.payload.notificationId
            && p.entry.targetUrl == Some(url)
            && p.state.entries == Put(st.entries, p.entry)
            && h.attempts < p.entry.attempts <= h.attempts + limits.attempts
            && (p.threw ==> p.entry.attempts == h.attempts + limits.attempts)
            && p.state.sent == st.sent + Numbered(url, n, h.attempts, p.entry.attempts)
            && (p.threw <==> NoneAccepted(w, |st.sent|, |st.sent| + limits.attempts))
            && p.state.readings > st.readings
  {
    DeliverAttempts(w, url, n, h.attempts + limits.attempts, Cycle(st.sent, h.attempts, false, None, None));
    hide Deliver, Put, Pow, Numbered;
  }

  // ---- the store ----

  predicate UniqueIds(entries: seq<Entry>) {
    OrderedMap.Unique(entries, EntryId)
  }

  /** A put replaces the entry with its id in place, or appends. */
  lemma PutEffect(entries: seq<Entry>, e: Entry)
    requires UniqueIds(entries)
    ensures var after := Put(entries, e);
            && UniqueIds(after)
            && (forall x :: x in after <==> x == e || (x in entries && x.notificationId != e.notificationId))
  {
    OrderedMap.PutEffect(entries, EntryId, e);
    hide OrderedMap.Put, OrderedMap.Unique;
  }

  lemma FindIs(entries: seq<Entry>, id: Id)
    requires UniqueIds(entries)
    ensures var found := Find(entries, id);
            && (found.Some? ==> found.value in entries && found.value.notificationId == id)
            && forall x :: x in entries && x.notificationId == id ==> found == Some(x)
  {
    OrderedMap.GetIs(entries, EntryId, id);
    forall x | x in entries && x.notificationId == id
      ensures Find(entries, id) == Some(x)
    {
      OrderedMap.GetUnique(entries, EntryId, x);
    }
    hide OrderedMap.Get, OrderedMap.Unique;
  }

  /** The due entries are distinct entries of the outbox, and all of those that are due. */
  lemma {:induction false} DueEffect(entries: seq<Entry>, now: int)
    requires UniqueIds(entries)
    ensures var due := Due(entries, now);
            UniqueIds(due) && forall x :: x in due <==> x in entries && IsDue(x, now)
  {
    if entries != [] {
      OrderedMap.TailUnique(entries, EntryId);
      DueEffect(entries[1..], now);
      hide UniqueIds, IsDue;
      OrderedMap.ConsUnique(entries[0], Due(entries[1..], now), EntryId);
      assert [] + Due(entries[1..], now) == Due(entries[1..], now);
    }
  }

  // ---- events ----

  datatype Event =
    | NotifyEvent(n: Notification, callbackUrl: Option<string>, message: string)
    | PassEvent
    | OperatorEvent(id: Id)

  function Step(limits: Limits, w: World, st: State, event: Event): State {
    match event
    case NotifyEvent(n, url, message) => Notify(limits, w, st, n, url, message).state
    case PassEvent => Pass(limits, w, st).state
    case OperatorEvent(id) => Redeliver(limits, w, st, id).state
  }

  function Run(limits: Limits, w: World, st: State, events: seq<Event>): State
    decreases events
  {
    if events == [] then st else Run(limits, w, Step(limits, w, st, events[0]), events[1..])
  }

  const EMPTY := State([], 0, [])

  predicate WorkerEvents(events: seq<Event>) {
    forall i :: 0 <= i < |events| ==> !events[i].OperatorEvent?
  }

  /** Every entry is filed under its payload's id and classified. This needs nothing of the clock. */
  predicate Counted(limits: Limits, entries: seq<Entry>) {
    && UniqueIds(entries)
    && forall e :: e in entries ==> e.payload.notificationId == e.notificationId && Classified(limits, e)
  }

  // ---- backoff over worker runs ----

  /** Every entry is classified and backed off. */
  predicate Sound(limits: Limits, entries: seq<Entry>)
    requires limits.Valid()
  {
    Counted(limits, entries) && forall e :: e in entries ==> BackedOff(limits, e)
  }

  lemma PutSound(limits: Limits, entries: seq<Entry>, e: Entry)
    requires limits.Valid() && Sound(limits, entries)
    requires e.payload.notificationId == e.notificationId && Classified(limits, e) && BackedOff(limits, e)
    ensures Sound(limits, Put(entries, e))
  {
    PutEffect(entries, e);
    hide Put, Classified, BackedOff, UniqueIds;
  }

  /** A due entry that is classified and backed off is ready, now and at any later reading. */
  lemma DueIsReady(limits: Limits, w: World, st: State, e: Entry, r: nat)
    requires limits.Valid() && Monotone(w) && Classified(limits, e) && BackedOff(limits, e)
    requires IsDue(e, w.clock(r)) && r <= st.readings
    ensures Ready(limits, w, st, Known(e)) && Given(e.targetUrl)
  {
    hide Geometric;
  }

  /** Due entries, seen from the reading that made them due. */
  predicate AllDue(limits: Limits, due: seq<Entry>, now: int)
    requires limits.Valid()
  {
    forall e :: e in due ==>
      e.payload.notificationId == e.notificationId && Classified(limits, e) && BackedOff(limits, e) && IsDue(e, now)
  }

  /** The loop of a pass keeps the outbox sound. */
  lemma {:induction false} PassLoopSound(limits: Limits, w: World, st: State, due: seq<Entry>, r: nat)
    requires limits.Valid() && Monotone(w) && Sound(limits, st.entries) && r <= st.readings
    requires AllDue(limits, due, w.clock(r))
    ensures Sound(limits, PassLoop(limits, w, st, due).state.entries)
    decreases due
  {
    hide PostNotification, Sound, Classified, BackedOff, IsDue;
    if due != [] {
      var e := due[0];
      DueIsReady(limits, w, st, e, r);
      PostCounts(limits, w, st, e.targetUrl.value, e.payload, Known(e));
      PostBacksOff(limits, w, st, e.targetUrl.value, e.payload, Known(e));
      PostLog(limits, w, st, e.targetUrl.value, e.payload, Known(e));
      var p := PostNotification(limits, w, st, e.targetUrl.value, e.payload, Known(e));
      PutSound(limits, st.entries, p.entry);
      if !p.threw {
        PassLoopSound(limits, w, p.state, due[1..], r);
      }
    }
  }

  lemma NotifySound(limits: Limits, w: World, st: State, n: Notification, url: Option<string>, message: string)
    requires limits.Valid() && Monotone(w) && Sound(limits, st.entries)
    ensures Sound(limits, Notify(limits, w, st, n, url, message).state.entries)
  {
    if Given(url) {
      assert Geometric(limits.multiplier, 0) == 0;
      hide Sound, PostNotification, Geometric;
      PostCounts(limits, w, st, url.value, n, NEW);
      PostBacksOff(limits, w, st, url.value, n, NEW);
      PostLog(limits, w, st, url.value, n, NEW);
      hide BackedOff, Classified;
      PutSound(limits, st.entries, PostNotification(limits, w, st, url.value, n, NEW).entry);
    } else {
      hide Sound;
      PutSound(limits, st.entries, SkippedEntry(n, message));
    }
  }

  lemma DueSound(limits: Limits, entries: seq<Entry>, now: int)
    requires limits.Valid() && Sound(limits, entries)
    ensures AllDue(limits, Due(entries, now), now)
  {
    DueEffect(entries, now);
    hide Due, Classified, BackedOff, IsDue, UniqueIds;
  }

  lemma PassSound(limits: Limits, w: World, st: State)
    requires limits.Valid() && Monotone(w) && Sound(limits, st.entries)
    ensures Sound(limits, Pass(limits, w, st).state.entries)
  {
    hide PassLoop, Due, Sound, AllDue;
    DueSound(limits, st.entries, w.clock(st.readings));
    PassLoopSound(limits, w, st.(readings := st.readings + 1), DueNow(w, st), st.readings);
  }

  lemma StepSound(limits: Limits, w: World, st: State, event: Event)
    requires limits.Valid() && Monotone(w) && Sound(limits, st.entries) && !event.OperatorEvent?
    ensures Sound(limits, Step(limits, w, st, event).entries)
  {
    hide Sound, Notify, Pass;
    match event
    case NotifyEvent(n, url, message) => NotifySound(limits, w, st, n, url, message);
    case PassEvent => PassSound(limits, w, st);
    case OperatorEvent(_) => // not a worker event
  }

  /** With a monotone clock, every entry is backed off in every state that notifications and worker passes reach. */
  lemma {:induction false} RunBacksOff(limits: Limits, w: World, st: State, events: seq<Event>)
    requires limits.Valid() && Monotone(w) && Sound(limits, st.entries) && WorkerEvents(events)
    ensures Sound(limits, Run(limits, w, st, events).entries)
    decreases events
  {
    hide Sound, Step;
    if events != [] {
      StepSound(limits, w, st, events[0]);
      RunBacksOff(limits, w, Step(limits, w, st, events[0]), events[1..]);
    }
  }

  /**
   An entry the worker dead-lettered was given at least b (1 + m + ... + m^(M-2)) milliseconds
   from its creation, so (m - 1) times its age is at least b (m^(M-1) - 1).
   */
  lemma DeadLetterAge(limits: Limits, w: World, events: seq<Event>, e: Entry)
    requires limits.Valid() && Monotone(w) && WorkerEvents(events)
    requires e in Run(limits, w, EMPTY, events).entries && e.status == DeadLettered
    ensures e.deadLetteredAt.Some?
    ensures var age := e.deadLetteredAt.value - e.createdAt;
            && age >= limits.baseDelay * Geometric(limits.multiplier, limits.cycles - 1)
            && (limits.multiplier - 1) * age >= limits.baseDelay * (Pow(limits.multiplier, limits.cycles - 1) - 1)
  {
    RunBacksOff(limits, w, EMPTY, events);
    hide Run;
    assert BackedOff(limits, e);
    var m, b, g := limits.multiplier, limits.baseDelay, Geometric(limits.multiplier, limits.cycles - 1);
    GeometricSum(m, limits.cycles - 1);
    ScaledAge(m - 1, b, g, e.deadLetteredAt.value - e.createdAt);
  }

  lemma ScaledAge(k: nat, b: nat, g: nat, age: int)
    requires age >= b * g
    ensures k * age >= b * (k * g)
  {
    assert k * age >= k * (b * g);
    assert k * (b * g) == b * (k * g);
  }

  // ---- attempt numbering, operator redeliveries included ----

  /** The attempt headers sent for a notification, in order. */
  function AttemptsOf(sent: seq<Post>, id: Id): seq<nat> {
    if sent == [] then []
    else AttemptsOf(sent[..|sent| - 1], id) +
         (if sent[|sent| - 1].notificationId == id then [sent[|sent| - 1].attempt] else [])
  }

  function UpTo(n: nat): (r: seq<nat>)
    ensures |r| == n
  {
    if n == 0 then [] else UpTo(n - 1) + [n]
  }

  /** A cycle from `from` appends the numbers `from` + 1 to `upto` for its own notification only. */
  lemma {:induction false} NumberedLog(sent: seq<Post>, url: string, n: Notification, from: nat, upto: nat, id: Id)
    requires from <= upto
    ensures var log := AttemptsOf(sent + Numbered(url, n, from, upto), id);
            && (id != n.notificationId ==> log == AttemptsOf(sent, id))
            && (id == n.notificationId ==> |log| == |AttemptsOf(sent, id)| + (upto - from))
            && (id == n.notificationId && AttemptsOf(sent, id) == UpTo(from) ==> log == UpTo(upto))
    decreases upto
  {
    if from == upto {
      assert sent + Numbered(url, n, from, upto) == sent;
    } else {
      NumberedLog(sent, url, n, from, upto - 1, id);
      var before := sent + Numbered(url, n, from, upto - 1);
      var after := sent + Numbered(url, n, from, upto);
      assert after == before + [NewPost(url, n, upto)];
      assert after[..|after| - 1] == before;
    }
  }

  function AttemptCount(entries: seq<Entry>, id: Id): nat {
    match Find(entries, id)
    case None => 0
    case Some(e) => e.attempts
  }

  lemma PutFind(entries: seq<Entry>, e: Entry, id: Id)
    ensures Find(Put(entries, e), id) == if id == e.notificationId then Some(e) else Find(entries, id)
  {
    OrderedMap.PutGet(entries, EntryId, e, id);
    hide OrderedMap.Put, OrderedMap.Get;
  }

  ghost predicate NumberedFor(st: State, id: Id) {
    AttemptsOf(st.sent, id) == UpTo(AttemptCount(st.entries, id))
  }

  /** For every id the headers sent so far are 1, 2, ..., n with n the stored attempts, under its own key. */
  ghost predicate AttemptsNumbered(st: State) {
    && UniqueIds(st.entries)
    && (forall e :: e in st.entries ==> e.payload.notificationId == e.notificationId)
    && (forall id: Id :: NumberedFor(st, id))
    && (forall p :: p in st.sent ==> p.idempotencyKey == p.notificationId)
  }

  lemma {:induction false} NumberedKeys(url: string, n: Notification, from: nat, upto: nat)
    requires from <= upto
    ensures forall p :: p in Numbered(url, n, from, upto) ==> p.idempotencyKey == p.notificationId
    decreases upto
  {
    if from < upto {
      NumberedKeys(url, n, from, upto - 1);
    }
  }

  /** A cycle keeps the numbering exactly when it starts from the stored count. */
  lemma PostNumbered(limits: Limits, w: World, st: State, url: string, n: Notification, h: History)
    requires limits.Valid() && AttemptsNumbered(st)
    requires h.attempts == AttemptCount(st.entries, n.notificationId) || h.attempts == 0
    ensures AttemptsNumbered(PostNotification(limits, w, st, url, n, h).state) <==>
            h.attempts == AttemptCount(st.entries, n.notificationId)
  {
    var p := PostNotification(limits, w, st, url, n, h);
    PostLog(limits, w, st, url, n, h);
    PutEffect(st.entries, p.entry);
    NumberedKeys(url, n, h.attempts, p.entry.attempts);
    hide PostNotification, UniqueIds, Put, Numbered, AttemptsOf, UpTo;
    forall id: Id
      ensures NumberedFor(p.state, id) <==>
              (id == n.notificationId ==> h.attempts == AttemptCount(st.entries, n.notificationId))
    {
      assert NumberedFor(st, id);
      PutFind(st.entries, p.entry, id);
      NumberedLog(st.sent, url, n, h.attempts, p.entry.attempts, id);
      hide Find;
    }
    assert NumberedFor(p.state, n.notificationId) <==> h.attempts == AttemptCount(st.entries, n.notificationId);
    hide NumberedFor, AttemptCount;
  }

  /** Notifying keeps the numbering exactly when nothing was posted under the id before. */
  lemma NotifyNumbered(limits: Limits, w: World, st: State, n: Notification, url: Option<string>, message: string)
    requires limits.Valid() && AttemptsNumbered(st)
    ensures AttemptsNumbered(Notify(limits, w, st, n, url, message).state) <==>
            AttemptCount(st.entries, n.notificationId) == 0
  {
    if Given(url) {
      PostNumbered(limits, w, st, url.value, n, NEW);
    } else {
      var e := SkippedEntry(n, message);
      PutEffect(st.entries, e);
      var after := Notify(limits, w, st, n, url, message).state;
      assert after.entries == Put(st.entries, e) && after.sent == st.sent;
      hide UniqueIds, Put, AttemptsOf, UpTo, Notify;
      forall id: Id
        ensures NumberedFor(after, id) <==> (id == n.notificationId ==> AttemptCount(st.entries, n.notificationId) == 0)
      {
        assert NumberedFor(st, id);
        PutFind(st.entries, e, id);
        hide Find;
      }
      assert NumberedFor(after, n.notificationId) <==> AttemptCount(st.entries, n.notificationId) == 0;
      hide NumberedFor, AttemptCount;
    }
  }

  ghost predicate AllCurrent(st: State, due: seq<Entry>) {
    UniqueIds(due) && forall e :: e in due ==> Find(st.entries, e.notificationId) == Some(e)
  }

  lemma CurrentAfterPost(st: State, due: seq<Entry>, st': State, e: Entry)
    requires due != [] && AllCurrent(st, due)
    requires st'.entries == Put(st.entries, e) && e.notificationId == due[0].notificationId
    ensures AllCurrent(st', due[1..])
  {
    OrderedMap.TailUnique(due, EntryId);
    hide UniqueIds, Put, Find;
    forall x | x in due[1..]
      ensures Find(st'.entries, x.notificationId) == Some(x)
    {
      PutFind(st.entries, e, x.notificationId);
    }
  }

  lemma {:induction false} PassLoopNumbered(limits: Limits, w: World, st: State, due: seq<Entry>)
    requires limits.Valid() && AttemptsNumbered(st) && AllCurrent(st, due)
    requires forall e :: e in due ==> e.payload.notificationId == e.notificationId
    ensures AttemptsNumbered(PassLoop(limits, w, st, due).state)
    decreases due
  {
    hide PostNotification, AttemptsNumbered;
    if due != [] {
      var e := due[0];
      if Given(e.targetUrl) {
        PostNumbered(limits, w, st, e.targetUrl.value, e.payload, Known(e));
        PostLog(limits, w, st, e.targetUrl.value, e.payload, Known(e));
        var p := PostNotification(limits, w, st, e.targetUrl.value, e.payload, Known(e));
        CurrentAfterPost(st, due, p.state, p.entry);
        if !p.threw {
          PassLoopNumbered(limits, w, p.state, due[1..]);
        }
      } else {
        OrderedMap.TailUnique(due, EntryId);
        PassLoopNumbered(limits, w, st, due[1..]);
      }
    }
  }

  lemma DueCurrent(st: State, now: int)
    requires UniqueIds(st.entries)
    ensures AllCurrent(st, Due(st.entries, now))
  {
    DueEffect(st.entries, now);
    hide UniqueIds, Due, Find;
    forall e | e in Due(st.entries, now)
      ensures Find(st.entries, e.notificationId) == Some(e)
    {
      FindIs(st.entries, e.notificationId);
    }
  }

  /** The event is not a second notification under an id that was posted before. */
  predicate FirstNotice(st: State, event: Event) {
    event.NotifyEvent? ==> AttemptCount(st.entries, event.n.notificationId) == 0
  }

  lemma StepNumbered(limits: Limits, w: World, st: State, event: Event)
    requires limits.Valid() && AttemptsNumbered(st)
    ensures AttemptsNumbered(Step(limits, w, st, event)) <==> FirstNotice(st, event)
  {
    match event
    case NotifyEvent(n, url, message) =>
      NotifyNumbered(limits, w, st, n, url, message);
    case PassEvent =>
      var due := DueNow(w, st);
      DueEffect(st.entries, w.clock(st.readings));
      DueCurrent(st, w.clock(st.readings));
      var st1 := st.(readings := st.readings + 1);
      assert AttemptsNumbered(st1) by { assert forall id: Id :: NumberedFor(st, id) <==> NumberedFor(st1, id); }
      hide AttemptsNumbered, UniqueIds, Due, PassLoop;
      PassLoopNumbered(limits, w, st1, due);
    case OperatorEvent(id) =>
      FindIs(st.entries, id);
      if Find(st.entries, id).Some? {
        var e := Find(st.entries, id).value;
        if Given(e.targetUrl) {
          PostNumbered(limits, w, st, e.targetUrl.value, e.payload, Known(e));
        }
      }
      hide AttemptsNumbered, UniqueIds, Find;
  }

  ghost predicate NumberedThroughout(limits: Limits, w: World, st: State, events: seq<Event>)
    decreases events
  {
    AttemptsNumbered(st) && (events == [] || NumberedThroughout(limits, w, Step(limits, w, st, events[0]), events[1..]))
  }

  predicate FirstNotices(limits: Limits, w: World, st: State, events: seq<Event>)
    decreases events
  {
    events == [] || (FirstNotice(st, events[0]) && FirstNotices(limits, w, Step(limits, w, st, events[0]), events[1..]))
  }

  /**
   Over any run, operator redeliveries included, every id's delivery-attempt headers are
   1, 2, ..., n throughout exactly when no posted id is notified again.
   */
  lemma {:induction false} RunNumbered(limits: Limits, w: World, st: State, events: seq<Event>)
    requires limits.Valid() && AttemptsNumbered(st)
    ensures NumberedThroughout(limits, w, st, events) <==> FirstNotices(limits, w, st, events)
    ensures FirstNotices(limits, w, st, events) ==> AttemptsNumbered(Run(limits, w, st, events))
    decreases events
  {
    hide AttemptsNumbered, Step, FirstNotice;
    if events != [] {
      StepNumbered(limits, w, st, events[0]);
      if FirstNotice(st, events[0]) {
        RunNumbered(limits, w, Step(limits, w, st, events[0]), events[1..]);
      }
    }
  }

  // ---- drain ----

  /** The cycles a failed entry has left. */
  function CyclesLeft(limits: Limits, e: Entry): nat {
    if e.status == Failed && e.redeliveryCount < limits.cycles then limits.cycles - e.redeliveryCount else 0
  }

  function Measure(limits: Limits, entries: seq<Entry>): nat {
    if entries == [] then 0 else CyclesLeft(limits, entries[0]) + Measure(limits, entries[1..])
  }

  function FailedCount(entries: seq<Entry>): nat {
    if entries == [] then 0 else (if entries[0].status == Failed then 1 else 0) + FailedCount(entries[1..])
  }

  lemma {:induction false} MeasureBound(limits: Limits, entries: seq<Entry>)
    requires limits.Valid() && forall e :: e in entries ==> Classified(limits, e)
    ensures Measure(limits, entries) <= FailedCount(entries) * (limits.cycles - 1)
    ensures Measure(limits, entries) == 0 <==> FailedCount(entries) == 0
  {
    if entries != [] {
      MeasureBound(limits, entries[1..]);
      assert Classified(limits, entries[0]);
      var k, f := limits.cycles - 1, FailedCount(entries[1..]);
      assert (f + 1) * k == f * k + k;
    }
  }

  lemma {:induction false} PutMeasure(limits: Limits, entries: seq<Entry>, e: Entry)
    requires Find(entries, e.notificationId).Some?
    ensures Measure(limits, Put(entries, e)) ==
            Measure(limits, entries) - CyclesLeft(limits, Find(entries, e.notificationId).value) + CyclesLeft(limits, e)
  {
    if entries[0].notificationId != e.notificationId {
      PutMeasure(limits, entries[1..], e);
      assert Put(entries, e)[1..] == Put(entries[1..], e);
    } else {
      assert Put(entries, e)[1..] == entries[1..];
    }
  }

  lemma PutCounted(limits: Limits, entries: seq<Entry>, e: Entry)
    requires Counted(limits, entries) && e.payload.notificationId == e.notificationId && Classified(limits, e)
    ensures Counted(limits, Put(entries, e))
  {
    PutEffect(entries, e);
    hide Put, Classified, UniqueIds;
  }

  predicate AllFailed(limits: Limits, due: seq<Entry>) {
    forall e :: e in due ==> e.status == Failed && e.payload.notificationId == e.notificationId && Classified(limits, e)
  }

  /** Every entry the loop of a pass takes up uses a cycle, even the one whose failure ends the pass. */
  lemma {:induction false} PassLoopDrains(limits: Limits, w: World, st: State, due: seq<Entry>)
    requires limits.Valid() && Counted(limits, st.entries) && AllCurrent(st, due) && AllFailed(limits, due)
    ensures var st' := PassLoop(limits, w, st, due).state;
            && Counted(limits, st'.entries)
            && Measure(limits, st'.entries) + (if due != [] then 1 else 0) <= Measure(limits, st.entries)
    decreases due
  {
    hide PostNotification, Counted, Measure;
    if due != [] {
      var e := due[0];
      assert Classified(limits, e);
      PostCounts(limits, w, st, e.targetUrl.value, e.payload, Known(e));
      PostLog(limits, w, st, e.targetUrl.value, e.payload, Known(e));
      var p := PostNotification(limits, w, st, e.targetUrl.value, e.payload, Known(e));
      PutMeasure(limits, st.entries, p.entry);
      PutCounted(limits, st.entries, p.entry);
      CurrentAfterPost(st, due, p.state, p.entry);
      if !p.threw {
        PassLoopDrains(limits, w, p.state, due[1..]);
      }
    }
  }

  lemma DueAllFailed(limits: Limits, entries: seq<Entry>, now: int)
    requires Counted(limits, entries)
    ensures AllFailed(limits, Due(entries, now))
  {
    DueEffect(entries, now);
    hide Due, UniqueIds, Classified;
  }

  lemma PassDrains(limits: Limits, w: World, st: State)
    requires limits.Valid() && Counted(limits, st.entries)
    ensures var st' := Pass(limits, w, st).state;
            && Counted(limits, st'.entries)
            && Measure(limits, st'.entries) + (if DueNow(w, st) != [] then 1 else 0) <= Measure(limits, st.entries)
  {
    var st1 := st.(readings := st.readings + 1);
    hide Find;
    DueCurrent(st1, w.clock(st.readings));
    DueAllFailed(limits, st.entries, w.clock(st.readings));
    hide Due, UniqueIds, Measure, PassLoop, AllFailed, AllCurrent, Counted;
    PassLoopDrains(limits, w, st1, DueNow(w, st));
  }

  /** k worker passes in a row, with no new notifications. */
  function Passes(limits: Limits, w: World, st: State, k: nat): State
    decreases k
  {
    if k == 0 then st else Passes(limits, w, Pass(limits, w, st).state, k - 1)
  }

  /** How many of them found a due entry. */
  function Productive(limits: Limits, w: World, st: State, k: nat): nat
    decreases k
  {
    if k == 0 then 0 else (if DueNow(w, st) != [] then 1 else 0) + Productive(limits, w, Pass(limits, w, st).state, k - 1)
  }

  lemma {:induction false} PassesDrain(limits: Limits, w: World, st: State, k: nat)
    requires limits.Valid() && Counted(limits, st.entries)
    ensures Counted(limits, Passes(limits, w, st, k).entries)
    ensures Measure(limits, Passes(limits, w, st, k).entries) + Productive(limits, w, st, k) <= Measure(limits, st.entries)
    decreases k
  {
    if k > 0 {
      PassDrains(limits, w, st);
      hide Pass, Counted, Measure, DueNow;
      PassesDrain(limits, w, Pass(limits, w, st).state, k - 1);
    }
  }

  /** From a counted outbox at most N (M - 1) passes find a due entry, N being the failed entries, and then none is failed. */
  lemma DrainFrom(limits: Limits, w: World, st: State, k: nat)
    requires limits.Valid() && Counted(limits, st.entries)
    ensures var bound := FailedCount(st.entries) * (limits.cycles - 1);
            && Productive(limits, w, st, k) <= bound
            && (Productive(limits, w, st, k) == bound ==> FailedCount(Passes(limits, w, st, k).entries) == 0)
  {
    PassesDrain(limits, w, st, k);
    MeasureBound(limits, st.entries);
    MeasureBound(limits, Passes(limits, w, st, k).entries);
    hide Passes, Productive, Measure, FailedCount, Classified;
  }

  // ---- classification over worker runs, for every clock ----

  lemma NotifyCounted(limits: Limits, w: World, st: State, n: Notification, url: Option<string>, message: string)
    requires limits.Valid() && Counted(limits, st.entries)
    ensures Counted(limits, Notify(limits, w, st, n, url, message).state.entries)
  {
    hide Counted;
    if Given(url) {
      hide PostNotification;
      PostCounts(limits, w, st, url.value, n, NEW);
      PostLog(limits, w, st, url.value, n, NEW);
      hide Classified;
      PutCounted(limits, st.entries, PostNotification(limits, w, st, url.value, n, NEW).entry);
    } else {
      PutCounted(limits, st.entries, SkippedEntry(n, message));
    }
  }

  /**
   Classification: in every state that notifications and worker passes reach, failed entries have
   1 to M - 1 cycles of A attempts, dead-lettered ones M of A, and delivered ones end inside a cycle.
   */
  lemma {:induction false} RunCounted(limits: Limits, w: World, st: State, events: seq<Event>)
    requires limits.Valid() && Counted(limits, st.entries) && WorkerEvents(events)
    ensures Counted(limits, Run(limits, w, st, events).entries)
    decreases events
  {
    hide Counted, Notify, Pass, Measure, DueNow;
    if events != [] {
      match events[0]
      case NotifyEvent(n, url, message) =>
        NotifyCounted(limits, w, st, n, url, message);
        RunCounted(limits, w, Step(limits, w, st, events[0]), events[1..]);
      case PassEvent =>
        PassDrains(limits, w, st);
        RunCounted(limits, w, Step(limits, w, st, events[0]), events[1..]);
      case OperatorEvent(_) => // not a worker event
    }
  }

  /** With worker passes only, no notification is ever posted more than M A times. */
  lemma PostsBounded(limits: Limits, w: World, events: seq<Event>, id: Id)
    requires limits.Valid() && WorkerEvents(events) && FirstNotices(limits, w, EMPTY, events)
    ensures |AttemptsOf(Run(limits, w, EMPTY, events).sent, id)| <= limits.cycles * limits.attempts
  {
    RunCounted(limits, w, EMPTY, events);
    assert forall i: Id :: NumberedFor(EMPTY, i);
    RunNumbered(limits, w, EMPTY, events);
    var st := Run(limits, w, EMPTY, events);
    hide Run, AttemptsOf, UpTo, FirstNotices;
    assert NumberedFor(st, id);
    FindIs(st.entries, id);
    if Find(st.entries, id).Some? {
      var e := Find(st.entries, id).value;
      assert Classified(limits, e);
      ClassifiedBound(limits, e);
    }
    hide Find, Classified;
  }

  lemma ProductLe(a: nat, b: nat, c: nat)
    requires a <= b
    ensures a * c <= b * c
  {}

  lemma ClassifiedBound(limits: Limits, e: Entry)
    requires Classified(limits, e)
    ensures e.attempts <= limits.cycles * limits.attempts
  {
    if e.status == Failed {
      ProductLe(e.redeliveryCount, limits.cycles, limits.attempts);
    } else if e.status == Delivered {
      ProductLe(e.redeliveryCount + 1, limits.cycles, limits.attempts);
    }
  }

  /**
   Drain: after any run of notifications and worker passes, whatever the receivers answer and
   whatever the clock shows, at most N (M - 1) further passes find a due entry, N being the failed
   entries, and once that many have, none is failed any more.
   */
  lemma Drain(limits: Limits, w: World, events: seq<Event>, k: nat)
    requires limits.Valid() && WorkerEvents(events)
    ensures var st := Run(limits, w, EMPTY, events);
            var bound := FailedCount(st.entries) * (limits.cycles - 1);
            && Productive(limits, w, st, k) <= bound
            && (Productive(limits, w, st, k) == bound ==> FailedCount(Passes(limits, w, st, k).entries) == 0)
  {
    RunCounted(limits, w, EMPTY, events);
    hide Run, Counted, Productive, Passes, FailedCount;
    DrainFrom(limits, w, Run(limits, w, EMPTY, events), k);
  }
}
