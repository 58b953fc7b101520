/** What a notification, a redelivery and a worker pass send and store, read off the log, the outbox and the answers. */
module OutboxPassProofs {
  import opened Prelude
  import opened Text
  import OrderedMap
  import opened Outbox
  import opened OutboxProofs

  // ---- limits ----

  /** Defaults of one attempt, a second, doubling and three cycles; no option below one, and no negative delay, counts. */
  lemma LimitsOf(o: Options)
    ensures Normalize(Options(None, None, None, None)) == Limits(1, 1000, 2, 3)
    ensures var limits := Normalize(o);
            && (o.maxAttempts.Some? ==> limits.attempts == if o.maxAttempts.value >= 1 then o.maxAttempts.value else 1)
            && (o.redeliveryBaseDelayMs.Some? ==>
                  limits.baseDelay == if o.redeliveryBaseDelayMs.value >= 0 then o.redeliveryBaseDelayMs.value else 0)
            && (o.redeliveryBackoffMultiplier.Some? ==>
                  limits.multiplier == if o.redeliveryBackoffMultiplier.value >= 1 then o.redeliveryBackoffMultiplier.value else 1)
            && (o.maxRedeliveryCycles.Some? ==>
                  limits.cycles == if o.maxRedeliveryCycles.value >= 1 then o.maxRedeliveryCycles.value else 1)
  {}

  // ---- one cycle ----

  /** The post is attempt number `attempt` of the notification, to this URL. */
  predicate IsPost(p: Post, url: string, n: Notification, attempt: nat) {
    && p.url == url && p.notificationId == n.notificationId && p.idempotencyKey == n.notificationId
    && p.eventType == n.eventType && p.attempt == attempt
  }

  /**
   Posts number `a` to `b` - 1 of the log are one cycle of the notification, which had `before`
   attempts: numbered on from there, up to the first acceptance or all that are allowed.
   */
  predicate CycleOf(limits: Limits, w: World, sent: seq<Post>, a: nat, b: nat, url: string, n: Notification, before: nat) {
    && a < b <= |sent| && b - a <= limits.attempts
    && (forall i :: a <= i < b ==> IsPost(sent[i], url, n, before + (i - a) + 1))
    && (forall i :: a <= i < b - 1 ==> !w.receiver(i).Accepted?)
    && (w.receiver(b - 1).Accepted? || b - a == limits.attempts)
  }

  /** The message kept of an answer that is no acceptance. */
  function ErrorOf(answer: Answer): string
    requires !answer.Accepted?
  {
    match answer
    case Refused(status, text) => RefusalText(status, text)
    case Unreachable(message) => message
  }

  /** What is stored of a cycle that ended with post `b` - 1 of the log, apart from its times. */
  predicate EntryOf(limits: Limits, w: World, e: Entry, url: string, n: Notification, h: History, a: nat, b: nat)
    requires a < b
  {
    && e.notificationId == n.notificationId && e.idempotencyKey == n.notificationId && e.eventType == n.eventType
    && e.payload == n && e.targetUrl == Some(url) && e.attempts == h.attempts + (b - a)
    && match w.receiver(b - 1)
       case Accepted(status) =>
         && e.status == Delivered && e.redeliveryCount == h.redeliveryCount
         && e.responseStatus == Some(status) && e.errorMessage == None && e.nextAttemptAt == None && e.deadLetteredAt == None
       case refusal =>
         && e.status == (if h.redeliveryCount + 1 < limits.cycles then Failed else DeadLettered)
         && e.redeliveryCount == h.redeliveryCount + 1
         && e.errorMessage == Some(ErrorOf(refusal))
         && (refusal.Refused? ==> e.responseStatus == Some(refusal.status))
  }

  lemma {:induction false} NumberedAre(url: string, n: Notification, from: nat, upto: nat)
    requires from <= upto
    ensures forall i :: 0 <= i < upto - from ==> IsPost(Numbered(url, n, from, upto)[i], url, n, from + i + 1)
    decreases upto
  {
    if from < upto {
      NumberedAre(url, n, from, upto - 1);
    }
  }

  /** What the loop remembers is what its last post was answered. */
  lemma {:induction false} DeliverRemembers(w: World, url: string, n: Notification, limit: nat, c: Cycle)
    requires !c.accepted && c.attempts < limit
    ensures var d := Deliver(w, url, n, limit, c);
            && |d.sent| > |c.sent|
            && match w.receiver(|d.sent| - 1)
               case Accepted(status) => d.accepted && d.lastStatus == Some(status)
               case Refused(status, text) => !d.accepted && d.lastStatus == Some(status) && d.lastError == Some(RefusalText(status, text))
               case Unreachable(message) => !d.accepted && d.lastError == Some(message)
    decreases limit - c.attempts
  {
    hide RefusalText;
    if c.attempts + 1 < limit {
      var sent := c.sent + [NewPost(url, n, c.attempts + 1)];
      match w.receiver(|c.sent|)
      case Accepted(_) =>
      case Refused(status, text) =>
        DeliverRemembers(w, url, n, limit, Cycle(sent, c.attempts + 1, false, Some(status), Some(RefusalText(status, text))));
      case Unreachable(message) =>
        DeliverRemembers(w, url, n, limit, Cycle(sent, c.attempts + 1, false, c.lastStatus, Some(message)));
    }
  }

  /** The posts of one call are a cycle. */
  lemma DeliverIsCycle(limits: Limits, w: World, sent: seq<Post>, url: string, n: Notification, before: nat)
    requires limits.Valid()
    ensures var d := Deliver(w, url, n, before + limits.attempts, Cycle(sent, before, false, None, None));
            && sent <= d.sent && CycleOf(limits, w, d.sent, |sent|, |d.sent|, url, n, before)
            && d.attempts == before + (|d.sent| - |sent|)
  {
    var start := Cycle(sent, before, false, None, None);
    var limit := before + limits.attempts;
    DeliverAttempts(w, url, n, limit, start);
    DeliverRemembers(w, url, n, limit, start);
    var d := Deliver(w, url, n, limit, start);
    NumberedAre(url, n, before, d.attempts);
    hide Deliver, RefusalText, Numbered;
    forall i | |sent| <= i < |d.sent|
      ensures IsPost(d.sent[i], url, n, before + (i - |sent|) + 1)
    {
      assert d.sent[i] == Numbered(url, n, before, d.attempts)[i - |sent|];
    }
    hide IsPost;
  }

  /** One post, read off the log: a cycle and the entry of it, and a throw exactly when its last post is not accepted. */
  lemma PostIsCycle(limits: Limits, w: World, st: State, url: string, n: Notification, h: History)
    requires limits.Valid()
    ensures var p := PostNotification(limits, w, st, url, n, h);
            && st.sent <= p.state.sent && p.state.entries == Put(st.entries, p.entry)
            && CycleOf(limits, w, p.state.sent, |st.sent|, |p.state.sent|, url, n, h.attempts)
            && EntryOf(limits, w, p.entry, url, n, h, |st.sent|, |p.state.sent|)
            && (p.threw <==> !w.receiver(|p.state.sent| - 1).Accepted?)
  {
    DeliverIsCycle(limits, w, st.sent, url, n, h.attempts);
    DeliverRemembers(w, url, n, h.attempts + limits.attempts, Cycle(st.sent, h.attempts, false, None, None));
    hide Deliver, Put, Pow, RefusalText, CycleOf;
  }

  /**
   The times of an entry: created when first seen, attempted when the cycle starts; after a failed
   cycle due the backoff after the last clock reading, or dead-lettered at the start of the cycle.
   */
  lemma PostTimes(limits: Limits, w: World, st: State, url: string, n: Notification, h: History)
    requires limits.Valid()
    ensures var p := PostNotification(limits, w, st, url, n, h);
            var first := if h.createdAt.Some? then st.readings else st.readings + 1;
            var e := p.entry;
            && e.createdAt == (if h.createdAt.Some? then h.createdAt.value else w.clock(st.readings))
            && e.lastAttemptAt == e.updatedAt == w.clock(first)
            && p.state.readings == first + (if e.status == Failed then 2 else 1)
            && (e.status == Failed ==>
                  e.deadLetteredAt == None &&
                  e.nextAttemptAt == Some(w.clock(p.state.readings - 1) + limits.baseDelay * Pow(limits.multiplier, h.redeliveryCount)))
            && (e.status == DeadLettered ==> e.nextAttemptAt == None && e.deadLetteredAt == Some(e.updatedAt))
  {
    PostIsCycle(limits, w, st, url, n, h);
    hide Deliver, Put, Pow, CycleOf;
  }

  /** Everything filed under another id is as it was. */
  ghost predicate OthersKept(st: State, st': State, id: Id) {
    forall other: Id :: other != id ==> Find(st'.entries, other) == Find(st.entries, other)
  }

  /** The step from `st` to `st'` is one cycle of the notification, and nothing else. */
  ghost predicate OneCycle(limits: Limits, w: World, st: State, st': State, url: string, n: Notification, h: History) {
    && st.sent <= st'.sent
    && CycleOf(limits, w, st'.sent, |st.sent|, |st'.sent|, url, n, h.attempts)
    && Find(st'.entries, n.notificationId).Some?
    && EntryOf(limits, w, Find(st'.entries, n.notificationId).value, url, n, h, |st.sent|, |st'.sent|)
    && OthersKept(st, st', n.notificationId)
  }

  lemma PostIsOneCycle(limits: Limits, w: World, st: State, url: string, n: Notification, h: History)
    requires limits.Valid()
    ensures var p := PostNotification(limits, w, st, url, n, h);
            && OneCycle(limits, w, st, p.state, url, n, h)
            && (p.threw <==> !w.receiver(|p.state.sent| - 1).Accepted?)
  {
    PostIsCycle(limits, w, st, url, n, h);
    var p := PostNotification(limits, w, st, url, n, h);
    assert p.entry.notificationId == n.notificationId;
    hide PostNotification, CycleOf, EntryOf, Find, Put;
    forall id: Id
      ensures Find(p.state.entries, id) == if id == n.notificationId then Some(p.entry) else Find(st.entries, id)
    {
      PutFind(st.entries, p.entry, id);
    }
  }

  // ---- notifying and redelivering ----

  /**
   A notification with a callback URL is posted: one cycle from attempt 0 to that URL, throwing
   exactly when no post of it is accepted. Without one nothing is sent and a skipped entry is stored.
   */
  lemma NotifyPosts(limits: Limits, w: World, st: State, n: Notification, url: Option<string>, message: string)
    requires limits.Valid()
    ensures var r := Notify(limits, w, st, n, url, message);
            if url.Some? && url.value != ""
            then
              && OneCycle(limits, w, st, r.state, url.value, n, NEW)
              && (r.outcome.Threw? <==> !w.receiver(|r.state.sent| - 1).Accepted?)
            else
              && r.outcome == Returned(()) && r.state.sent == st.sent && r.state.readings == st.readings
              && OthersKept(st, r.state, n.notificationId)
              && var e := Find(r.state.entries, n.notificationId);
                 e.Some? && e.value == Entry(n.notificationId, n.eventType, None, n, n.notificationId, 0, Skipped, 0,
                                             n.settledAt, n.settledAt, n.settledAt, None, None, None, Some(message))
  {
    if Given(url) {
      PostIsOneCycle(limits, w, st, url.value, n, NEW);
      hide PostNotification, OneCycle;
    } else {
      var e := SkippedEntry(n, message);
      hide Put, Find;
      forall id: Id
        ensures Find(Put(st.entries, e), id) == if id == n.notificationId then Some(e) else Find(st.entries, id)
      {
        PutFind(st.entries, e, id);
      }
    }
  }

  /** An operator's redelivery of a stored entry with a target posts one cycle of it on from its attempts; otherwise it throws. */
  lemma RedeliverPosts(limits: Limits, w: World, st: State, id: Id)
    requires limits.Valid()
    ensures var r, found := Redeliver(limits, w, st, id), Find(st.entries, id);
            if found.Some? && found.value.targetUrl.Some? && found.value.targetUrl.value != ""
            then
              var e := found.value;
              && OneCycle(limits, w, st, r.state, e.targetUrl.value, e.payload,
                          History(e.attempts, Some(e.createdAt), e.redeliveryCount))
              && (r.outcome.Threw? <==> !w.receiver(|r.state.sent| - 1).Accepted?)
            else r == Ran(st, Threw)
  {
    var found := Find(st.entries, id);
    if found.Some? && Given(found.value.targetUrl) {
      PostIsOneCycle(limits, w, st, found.value.targetUrl.value, found.value.payload, Known(found.value));
    }
    hide PostNotification, OneCycle, Find;
  }

  // ---- a pass ----

  /** Every entry is filed under its payload's id, and a failed one has a target. */
  predicate Addressed(entries: seq<Entry>) {
    && UniqueIds(entries)
    && forall e :: e in entries ==>
         e.payload.notificationId == e.notificationId
         && (e.status == Failed ==> e.targetUrl.Some? && e.targetUrl.value != "")
  }

  /** The entry is not among the first `taken` of the due ones. */
  predicate NotTaken(due: seq<Entry>, taken: nat, id: Id)
    requires taken <= |due|
  {
    forall k :: 0 <= k < taken ==> due[k].notificationId != id
  }

  /** The last of the first `b` posts ever made was accepted. */
  predicate AcceptedBefore(w: World, b: nat) {
    b > 0 && w.receiver(b - 1).Accepted?
  }

  /**
   A pass from `st` to `st'` took the first |cuts| - 1 due entries, in order, `cuts` being where
   their cycles begin and end in the log. Every cycle but the last ended in an acceptance; the
   pass threw exactly when the last did not, and otherwise took them all. What it did not take
   it did not touch: the entry is as it was, and no post went out under its id.
   */
  ghost predicate PassOver(limits: Limits, w: World, st: State, due: seq<Entry>, st': State, threw: bool, cuts: seq<nat>) {
    && 1 <= |cuts| <= |due| + 1
    && var taken: nat := |cuts| - 1;
       && st.sent <= st'.sent && cuts[0] == |st.sent| && cuts[taken] == |st'.sent|
       && (forall i :: 0 <= i < taken ==> due[i].targetUrl.Some? && Cut(limits, w, st', due[i], cuts[i], cuts[i + 1]))
       && (forall i :: 0 < i < taken ==> AcceptedBefore(w, cuts[i]))
       && (threw <==> taken > 0 && !AcceptedBefore(w, cuts[taken]))
       && (!threw ==> taken == |due|)
       && (forall id: Id :: NotTaken(due, taken, id) ==> Untouched(st, st', id))
  }

  /** Posts `a` to `b` - 1 are the cycle of a due entry, and its entry is the one of that cycle. */
  predicate Cut(limits: Limits, w: World, st': State, e: Entry, a: nat, b: nat)
    requires e.targetUrl.Some?
  {
    && a < b && b > 0
    && CycleOf(limits, w, st'.sent, a, b, e.targetUrl.value, e.payload, e.attempts)
    && Find(st'.entries, e.notificationId).Some?
    && EntryOf(limits, w, Find(st'.entries, e.notificationId).value, e.targetUrl.value, e.payload,
               History(e.attempts, Some(e.createdAt), e.redeliveryCount), a, b)
  }

  predicate Untouched(st: State, st': State, id: Id) {
    && Find(st'.entries, id) == Find(st.entries, id)
    && forall i :: |st.sent| <= i < |st'.sent| ==> st'.sent[i].notificationId != id
  }

  predicate AllAddressed(due: seq<Entry>) {
    forall e :: e in due ==> e.payload.notificationId == e.notificationId && Given(e.targetUrl)
  }

  lemma {:induction false} PassLoopTakes(limits: Limits, w: World, st: State, due: seq<Entry>) returns (cuts: seq<nat>)
    requires limits.Valid() && AllCurrent(st, due) && AllAddressed(due)
    ensures var r := PassLoop(limits, w, st, due); PassOver(limits, w, st, due, r.state, r.outcome.Threw?, cuts)
    decreases due
  {
    cuts := [|st.sent|];
    if due != [] {
      var e := due[0];
      var url, h := e.targetUrl.value, Known(e);
      PostIsOneCycle(limits, w, st, url, e.payload, h);
      PostLog(limits, w, st, url, e.payload, h);
      var p := PostNotification(limits, w, st, url, e.payload, h);
      CurrentAfterPost(st, due, p.state, p.entry);
      OrderedMap.TailUnique(due, EntryId);
      if p.threw {
        cuts := [|st.sent|, |p.state.sent|];
        LastTaken(limits, w, st, due, p.state);
      } else {
        var later := PassLoopTakes(limits, w, p.state, due[1..]);
        cuts := [|st.sent|] + later;
        var r := PassLoop(limits, w, p.state, due[1..]);
        FirstTaken(limits, w, st, due, p.state, r.state, r.outcome.Threw?, later);
        hide PassOver, PostNotification, AllCurrent, AllAddressed;
      }
    }
  }

  /** The posts of one cycle are all under its id. */
  lemma OnlyItsOwn(limits: Limits, w: World, st: State, st': State, url: string, n: Notification, h: History, id: Id)
    requires OneCycle(limits, w, st, st', url, n, h) && id != n.notificationId
    ensures Untouched(st, st', id)
  {
    hide EntryOf, Find;
  }

  lemma LastTaken(limits: Limits, w: World, st: State, due: seq<Entry>, st': State)
    requires due != [] && Given(due[0].targetUrl) && due[0].payload.notificationId == due[0].notificationId
    requires OneCycle(limits, w, st, st', due[0].targetUrl.value, due[0].payload, Known(due[0]))
    requires !w.receiver(|st'.sent| - 1).Accepted?
    ensures PassOver(limits, w, st, due, st', true, [|st.sent|, |st'.sent|])
  {
    var e := due[0];
    forall id: Id | NotTaken(due, 1, id)
      ensures Untouched(st, st', id)
    {
      assert due[0].notificationId != id;
      OnlyItsOwn(limits, w, st, st', e.targetUrl.value, e.payload, Known(e), id);
    }
    hide CycleOf, EntryOf, Find, Untouched, NotTaken;
  }

  /** A first cycle that is accepted, before what the rest of the pass does. */
  lemma FirstTaken(limits: Limits, w: World, st: State, due: seq<Entry>, st1: State, st': State, threw: bool, later: seq<nat>)
    requires due != [] && Given(due[0].targetUrl) && due[0].payload.notificationId == due[0].notificationId
    requires forall x :: x in due[1..] ==> x.notificationId != due[0].notificationId
    requires OneCycle(limits, w, st, st1, due[0].targetUrl.value, due[0].payload, Known(due[0]))
    requires w.receiver(|st1.sent| - 1).Accepted?
    requires PassOver(limits, w, st1, due[1..], st', threw, later)
    ensures PassOver(limits, w, st, due, st', threw, [|st.sent|] + later)
  {
    var e, rest, cuts := due[0], due[1..], [|st.sent|] + later;
    var taken: nat := |cuts| - 1;
    assert cuts[1] == |st1.sent|;
    assert NotTaken(rest, taken - 1, e.notificationId) by {
      assert forall k :: 0 <= k < |rest| ==> rest[k] in rest;
    }
    assert Untouched(st1, st', e.notificationId);
    FirstCut(limits, w, st, st1, st', e);
    forall i | 0 <= i < taken
      ensures due[i].targetUrl.Some? && Cut(limits, w, st', due[i], cuts[i], cuts[i + 1])
    {
      if i > 0 {
        assert due[i] == rest[i - 1] && cuts[i] == later[i - 1] && cuts[i + 1] == later[i];
      }
    }
    forall i | 0 < i < taken
      ensures AcceptedBefore(w, cuts[i])
    {
      assert cuts[i] == later[i - 1];
    }
    forall id: Id | NotTaken(due, taken, id)
      ensures Untouched(st, st', id)
    {
      assert due[0].notificationId != id;
      assert NotTaken(rest, taken - 1, id) by {
        assert forall k :: 0 <= k < taken - 1 ==> rest[k] == due[k + 1];
      }
      OnlyItsOwn(limits, w, st, st1, e.targetUrl.value, e.payload, Known(e), id);
      UntouchedTwice(st, st1, st', id);
    }
    hide Cut, Untouched, OneCycle, NotTaken;
  }

  lemma UntouchedTwice(st: State, st1: State, st': State, id: Id)
    requires Untouched(st, st1, id) && Untouched(st1, st', id) && st1.sent <= st'.sent
    ensures Untouched(st, st', id)
  {
    hide Find;
  }

  lemma FirstCut(limits: Limits, w: World, st: State, st1: State, st': State, e: Entry)
    requires Given(e.targetUrl) && e.payload.notificationId == e.notificationId
    requires OneCycle(limits, w, st, st1, e.targetUrl.value, e.payload, Known(e))
    requires Untouched(st1, st', e.notificationId) && st1.sent <= st'.sent
    ensures Cut(limits, w, st', e, |st.sent|, |st1.sent|)
  {
    assert forall i :: 0 <= i < |st1.sent| ==> st'.sent[i] == st1.sent[i];
    hide EntryOf, Find, IsPost;
  }

  /**
   A worker pass, in every outbox whose failed entries have targets: it takes a prefix of the due
   entries as described, so a first failure ends it and leaves the later ones as they were.
   */
  lemma PassTakesPrefix(limits: Limits, w: World, st: State) returns (cuts: seq<nat>)
    requires limits.Valid() && Addressed(st.entries)
    ensures var r := Pass(limits, w, st);
            && PassOver(limits, w, st, DueNow(w, st), r.state, r.outcome.Threw?, cuts)
            && (r.outcome.Threw? || r.outcome == Returned(|DueNow(w, st)|))
  {
    var now := w.clock(st.readings);
    var st1 := st.(readings := st.readings + 1);
    DueEffect(st.entries, now);
    DueCurrent(st1, now);
    assert AllAddressed(DueNow(w, st));
    cuts := PassLoopTakes(limits, w, st1, DueNow(w, st));
    hide PassLoop, Due, AllAddressed, AllCurrent, Find, Cut;
  }

  // ---- which entries are due ----

  /** The due entries are those that failed and whose time, if they have one, has come. */
  lemma DueExactly(w: World, st: State, e: Entry)
    requires UniqueIds(st.entries)
    ensures e in DueNow(w, st) <==>
            e in st.entries && e.status == Failed && (e.nextAttemptAt.Some? ==> e.nextAttemptAt.value <= w.clock(st.readings))
  {
    DueEffect(st.entries, w.clock(st.readings));
    hide Due, UniqueIds;
  }

  /** And they are taken in the order in which they are stored. */
  lemma {:induction false} DueInOrder(entries: seq<Entry>, now: int) returns (at: seq<nat>)
    ensures |at| == |Due(entries, now)|
    ensures forall i :: 0 <= i < |at| ==> at[i] < |entries| && entries[at[i]] == Due(entries, now)[i]
    ensures forall i, j :: 0 <= i < j < |at| ==> at[i] < at[j]
  {
    hide IsDue;
    at := [];
    if entries != [] {
      var later := DueInOrder(entries[1..], now);
      var moved: seq<nat> := seq(|later|, i requires 0 <= i < |later| => later[i] + 1);
      var first := if IsDue(entries[0], now) then [entries[0]] else [];
      assert Due(entries, now) == first + Due(entries[1..], now);
      if IsDue(entries[0], now) {
        at := [0] + moved;
        forall i | 0 <= i < |at|
          ensures at[i] < |entries| && entries[at[i]] == Due(entries, now)[i]
        {
          assert i > 0 ==> entries[1..][later[i - 1]] == Due(entries[1..], now)[i - 1];
        }
      } else {
        at := moved;
        forall i | 0 <= i < |at|
          ensures at[i] < |entries| && entries[at[i]] == Due(entries, now)[i]
        {
          assert entries[1..][later[i]] == Due(entries[1..], now)[i];
        }
      }
      hide Due;
    }
  }

  // ---- in every reachable state ----

  lemma PutAddressed(entries: seq<Entry>, e: Entry)
    requires Addressed(entries) && e.payload.notificationId == e.notificationId
    requires e.status == Failed ==> e.targetUrl.Some? && e.targetUrl.value != ""
    ensures Addressed(Put(entries, e))
  {
    PutEffect(entries, e);
    hide Put, UniqueIds;
  }

  lemma PostAddressed(limits: Limits, w: World, st: State, url: string, n: Notification, h: History)
    requires limits.Valid() && Addressed(st.entries) && url != ""
    ensures Addressed(PostNotification(limits, w, st, url, n, h).state.entries)
  {
    PostLog(limits, w, st, url, n, h);
    PutAddressed(st.entries, PostNotification(limits, w, st, url, n, h).entry);
    hide PostNotification, Addressed;
  }

  lemma {:induction false} PassLoopAddressed(limits: Limits, w: World, st: State, due: seq<Entry>)
    requires limits.Valid() && Addressed(st.entries)
    ensures Addressed(PassLoop(limits, w, st, due).state.entries)
    decreases due
  {
    hide PostNotification, Addressed;
    if due != [] {
      if Given(due[0].targetUrl) {
        PostAddressed(limits, w, st, due[0].targetUrl.value, due[0].payload, Known(due[0]));
        var p := PostNotification(limits, w, st, due[0].targetUrl.value, due[0].payload, Known(due[0]));
        PassLoopAddressed(limits, w, p.state, due[1..]);
      } else {
        PassLoopAddressed(limits, w, st, due[1..]);
      }
    }
  }

  lemma StepAddressed(limits: Limits, w: World, st: State, event: Event)
    requires limits.Valid() && Addressed(st.entries)
    ensures Addressed(Step(limits, w, st, event).entries)
  {
    hide Addressed, PostNotification, PassLoop, Find;
    match event
    case NotifyEvent(n, url, message) =>
      if Given(url) {
        PostAddressed(limits, w, st, url.value, n, NEW);
      } else {
        PutAddressed(st.entries, SkippedEntry(n, message));
      }
    case PassEvent => PassLoopAddressed(limits, w, st.(readings := st.readings + 1), DueNow(w, st));
    case OperatorEvent(id) =>
      var found := Find(st.entries, id);
      if found.Some? && Given(found.value.targetUrl) {
        PostAddressed(limits, w, st, found.value.targetUrl.value, found.value.payload, Known(found.value));
      }
  }

  /** So every pass of every run, operator redeliveries included, takes just such a prefix. */
  lemma {:induction false} RunAddressed(limits: Limits, w: World, st: State, events: seq<Event>)
    requires limits.Valid() && Addressed(st.entries)
    ensures Addressed(Run(limits, w, st, events).entries)
    decreases events
  {
    hide Addressed, Step;
    if events != [] {
      StepAddressed(limits, w, st, events[0]);
      RunAddressed(limits, w, Step(limits, w, st, events[0]), events[1..]);
    }
  }
}
