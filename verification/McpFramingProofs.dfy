/** What the framing promises: independence of the chunking, and the round trip. */
module McpFramingProofs {
  import opened Prelude
  import opened Text
  import opened McpFraming

  function Join(chunks: seq<string>): string {
    if chunks == [] then "" else chunks[0] + Join(chunks[1..])
  }

  // ---- one turn of the loop only looks at what it consumes ----

  /** A prefix stays a prefix, a non-prefix that holds a line end stays a non-prefix. */
  lemma StartsWithStable(s: string, t: string)
    requires StartsWith(s, PREFIX) || IndexOf(s, "\n").Some?
    ensures StartsWith(s + t, PREFIX) == StartsWith(s, PREFIX)
  {
    if |s| >= |PREFIX| {
      assert (s + t)[..|PREFIX|] == s[..|PREFIX|];
    } else {
      var i := IndexOf(s, "\n").value;
      assert s[i..i + 1][0] == s[i] == '\n';
      assert (s + t)[i] == '\n' && PREFIX[i] != '\n';
      if |s + t| >= |PREFIX| {
        assert (s + t)[..|PREFIX|][i] == '\n';
      }
    }
  }

  lemma ParseStable(s: string, t: string)
    requires ParseContentLengthMessage(s) != Ok(Parsed(None, s))
    ensures ParseContentLengthMessage(s + t) ==
            match ParseContentLengthMessage(s)
            case Err(e) => Err(e)
            case Ok(p) => Ok(Parsed(p.message, p.rest + t))
  {
    hide IndexOf, FindContentLength, Split, DeclaredLength;
    assert IndexOf(s, BLANK_LINE).Some?;
    IndexOfStable(s, t, BLANK_LINE);
    var headerEnd := IndexOf(s, BLANK_LINE).value;
    assert (s + t)[..headerEnd] == s[..headerEnd];
    match FindContentLength(Split(s[..headerEnd], CRLF))
    case None =>
    case Some(header) =>
      match DeclaredLength(header)
      case None =>
      case Some(n) =>
        var start := headerEnd + 4;
        assert (s + t)[start..start + n] == s[start..start + n];
        assert (s + t)[start + n..] == s[start + n..] + t;
  }

  /** Once a turn does something, it does the same whatever follows. */
  lemma NextStable(s: string, t: string)
    requires s != "" && !Next(s).Wait?
    ensures Next(s + t) == Next(s).Then(t)
  {
    if StartsWith(s, PREFIX) {
      StartsWithStable(s, t);
      ParseStable(s, t);
    } else {
      StartsWithStable(s, t);
      IndexOfStable(s, t, "\n");
      var i := IndexOf(s, "\n").value;
      assert (s + t)[..i] == s[..i];
      assert (s + t)[i + 1..] == s[i + 1..] + t;
    }
  }

  /** The part of `s` that a turn consumes, when it makes progress. */
  function Consumed(s: string): (x: string)
    requires s != "" && Next(s).Progress()
    ensures x != "" && s == x + Next(s).rest
  {
    NextSuffix(s);
    s[..|s| - |Next(s).rest|]
  }

  lemma NextSuffix(s: string)
    requires s != "" && Next(s).Progress()
    ensures s == s[..|s| - |Next(s).rest|] + Next(s).rest
  {
    hide FindContentLength, Split, DeclaredLength, Trim;
  }

  /** A turn can be cut out: on exactly the text it consumes it does the same and leaves nothing. */
  lemma NextLocal(s: string)
    requires s != "" && Next(s).Progress()
    ensures var x := Consumed(s);
            Next(x).Progress() && Next(x).rest == "" && Next(x).Then(Next(s).rest) == Next(s)
  {
    if StartsWith(s, PREFIX) {
      FrameLocal(s);
    } else {
      LineLocal(s);
    }
  }

  lemma FrameLocal(s: string)
    requires s != "" && StartsWith(s, PREFIX) && Next(s).Progress()
    ensures var x := Consumed(s);
            Next(x).Progress() && Next(x).rest == "" && Next(x).Then(Next(s).rest) == Next(s)
  {
    hide IndexOf, FindContentLength, Split, DeclaredLength;
    var x, r := Consumed(s), Next(s).rest;
    var headerEnd := IndexOf(s, BLANK_LINE).value;
    var n := DeclaredLength(FindContentLength(Split(s[..headerEnd], CRLF)).value).value;
    var end := headerEnd + 4 + n;
    assert x == s[..end];
    IndexOfPrefix(s, end, BLANK_LINE);
    assert x[..headerEnd] == s[..headerEnd];
    assert x[headerEnd + 4..end] == s[headerEnd + 4..end];
    PrefixBeforeBlankLine(s, headerEnd);
    assert x[..|PREFIX|] == s[..|PREFIX|];
  }

  lemma PrefixBeforeBlankLine(s: string, headerEnd: nat)
    requires StartsWith(s, PREFIX) && MatchesAt(s, BLANK_LINE, headerEnd)
    ensures |PREFIX| <= headerEnd
  {
    assert s[headerEnd] == s[headerEnd..headerEnd + 4][0] == '\r';
    assert forall k :: 0 <= k < |PREFIX| ==> s[k] == s[..|PREFIX|][k] != '\r';
  }

  lemma LineLocal(s: string)
    requires s != "" && !StartsWith(s, PREFIX) && Next(s).Progress()
    ensures var x := Consumed(s);
            Next(x).Progress() && Next(x).rest == "" && Next(x).Then(Next(s).rest) == Next(s)
  {
    hide IndexOf, Trim;
    var x, r := Consumed(s), Next(s).rest;
    var i := IndexOf(s, "\n").value;
    assert x == s[..i + 1];
    IndexOfPrefix(s, i + 1, "\n");
    assert x[..i] == s[..i];
    StartsWithStable(x, r);
  }

  lemma IndexOfPrefix(s: string, n: nat, p: string)
    requires IndexOf(s, p).Some? && IndexOf(s, p).value + |p| <= n <= |s|
    ensures IndexOf(s[..n], p) == IndexOf(s, p)
  {
    var i := IndexOf(s, p).value;
    assert s[..n][i..i + |p|] == s[i..i + |p|];
    forall k | 0 <= k < i
      ensures !MatchesAt(s[..n], p, k)
    {
      assert !MatchesAt(s, p, k);
      assert s[..n][k..k + |p|] == s[k..k + |p|];
    }
    IndexOfIs(s[..n], p, i);
  }

  // ---- chunk independence ----

  /** No turn of the loop can consume anything of `s`: it is empty, incomplete, or malformed. */
  predicate Stuck(s: string) {
    s == "" || !Next(s).Progress()
  }

  lemma StuckPrefix(s: string, t: string)
    requires Stuck(s + t)
    ensures Stuck(s)
  {
    if !Stuck(s) {
      NextStable(s, t);
    }
  }

  /** Draining a prefix and then the remainder of an undisturbed stream comes to the same. */
  lemma {:induction false} PrefixStep(p: string, t: string)
    requires Stuck(Drain(p + t).rest)
    ensures Stuck(Drain(p).rest)
    ensures var later := Drain(Drain(p).rest + t);
            Drain(p + t) == Extraction(Drain(p).messages + later.messages, later.rest)
    decreases |p|
  {
    hide Next;
    if p == "" {
      assert p + t == t;
    } else {
      if !Next(p).Wait? {
        NextStable(p, t);
      }
      match Next(p)
      case Wait =>
      case Fail(e) =>
      case EmptyFrame(q) =>
        StuckPrefix(q, t);
        DrainStuck(q + t);
      case Blank(q) =>
        PrefixStepVia(p, t, q);
      case Deliver(m, q) =>
        PrefixStepVia(p, t, q);
    }
  }

  lemma DrainStuck(s: string)
    requires Stuck(s)
    ensures Drain(s) == Extraction([], s)
  {}

  lemma FailStable(q: string, t: string)
    requires Stuck(q) && Extract(q).Err?
    ensures Extract(q + t).Err?
  {
    NextStable(q, t);
  }

  /** The step of PrefixStep over a turn that consumes everything of `p` before `q`. */
  lemma PrefixStepVia(p: string, t: string, q: string)
    requires p != "" && (Next(p).Blank? || Next(p).Deliver?) && Next(p).rest == q
    requires Next(p + t) == Next(p).Then(t)
    requires Stuck(Drain(p + t).rest)
    ensures Stuck(Drain(p).rest)
    ensures var later := Drain(Drain(p).rest + t);
            Drain(p + t) == Extraction(Drain(p).messages + later.messages, later.rest)
    decreases |p|, 0
  {
    hide Next;
    var first := Next(p).Messages();
    assert Extract(p + t) == After(first, Extract(q + t)) by { AfterAfter([], [], Extract(q + t)); }
    assert Extract(p) == After(first, Extract(q)) by { AfterAfter([], [], Extract(q)); }
    // The whole cannot throw: that would leave p + t buffered, which a turn can shorten.
    assert Extract(p + t).Ok?;
    PrefixStep(q, t);
    if Extract(q).Err? {
      FailStable(q, t);
    }
    var later := Drain(Drain(q).rest + t);
    assert first + (Drain(q).messages + later.messages) == (first + Drain(q).messages) + later.messages;
  }

  /** The message stream is the same however the stream is cut into (non-empty) chunks. */
  ghost predicate ChunkIndependent(s: string) {
    forall chunks: seq<string> ::
      Join(chunks) == s && "" !in chunks ==> Feed(START, chunks) == OnData(START, s)
  }

  /**
   Nothing that one event leaves buffered could have been consumed: extraction did not return
   early at a zero-length frame with more to read, and did not throw away messages found before
   a malformed header.
   */
  predicate Undisturbed(s: string) {
    Stuck(Drain(s).rest)
  }

  lemma {:induction false} FeedUndisturbed(c: Connection, chunks: seq<string>)
    requires Stuck(c.buffer)
    requires Undisturbed(c.buffer + Join(chunks))
    ensures var x := Drain(c.buffer + Join(chunks));
            Feed(c, chunks) == Connection(c.delivered + x.messages, x.rest)
    decreases chunks
  {
    hide Next, Drain, Stuck;
    if chunks == [] {
      assert c.buffer + Join(chunks) == c.buffer;
      DrainStuck(c.buffer);
    } else {
      var p, t := c.buffer + chunks[0], Join(chunks[1..]);
      assert c.buffer + Join(chunks) == p + t;
      PrefixStep(p, t);
      FeedUndisturbed(OnData(c, chunks[0]), chunks[1..]);
      var first, later := Drain(p), Drain(Drain(p).rest + t);
      assert (c.delivered + first.messages) + later.messages == c.delivered + (first.messages + later.messages);
    }
  }

  /** What extraction consumed before a buffer it left too early, as a stream of its own. */
  lemma {:induction false} ConsumedBefore(s: string) returns (a: string)
    requires !Undisturbed(s)
    ensures s == a + Drain(s).rest
    ensures Drain(a).rest == ""
    decreases |s|
  {
    hide Next;
    if Extract(s).Err? {
      a := "";
    } else {
      var x := Consumed(s);
      NextLocal(s);
      match Next(s)
      case EmptyFrame(q) =>
        a := x;
      case Blank(q) =>
        a := ConsumedBefore(q);
        Prepend(x, a);
        a := x + a;
      case Deliver(m, q) =>
        a := ConsumedBefore(q);
        Prepend(x, a);
        a := x + a;
    }
  }

  /** A self-contained turn in front of a stream that drains completely. */
  lemma Prepend(x: string, a: string)
    requires x != "" && (Next(x).Blank? || Next(x).Deliver?) && Next(x).rest == ""
    requires Drain(a).rest == ""
    ensures Drain(x + a).rest == ""
  {
    hide Next;
    NextStable(x, a);
    assert "" + a == a;
  }

  /** When something was left that a turn can consume, cutting the stream there shows it. */
  lemma DisturbedShows(s: string) returns (chunks: seq<string>)
    requires !Undisturbed(s)
    ensures Join(chunks) == s && "" !in chunks
    ensures Feed(START, chunks) != OnData(START, s)
  {
    hide Next, Drain, Feed, Join, Extract;
    var a := ConsumedBefore(s);
    var r := Drain(s).rest;
    var x, q := Consumed(r), Next(r).rest;
    NextLocal(r);
    ProgressDrains(x);
    DrainShorter(q);
    assert "" + s == s;
    assert a + x + q == a + (x + q) == s;
    chunks := (if a == "" then [] else [a]) + [x] + (if q == "" then [] else [q]);
    FeedThree(a, x, q);
  }

  lemma ProgressDrains(x: string)
    requires x != "" && Next(x).Progress() && Next(x).rest == ""
    ensures Drain(x).rest == ""
  {
    hide Next;
    assert Extract("").Ok?;
  }

  lemma {:induction false} DrainShorter(s: string)
    ensures |Drain(s).rest| <= |s|
    decreases |s|
  {
    hide Next;
    if s != "" && Next(s).Progress() {
      DrainShorter(Next(s).rest);
    }
  }

  lemma FeedThree(a: string, x: string, q: string)
    requires Drain(a).rest == "" && x != "" && Drain(x).rest == ""
    ensures var chunks := (if a == "" then [] else [a]) + [x] + (if q == "" then [] else [q]);
            Join(chunks) == a + x + q && "" !in chunks && Feed(START, chunks).buffer == Drain(q).rest
  {
    hide Next, Drain;
    assert "" + a == a && "" + x == x && "" + q == q;
    var tail := if q == "" then [] else [q];
    var c := if a == "" then START else OnData(START, a);
    assert Join(tail) == q && Join([x] + tail) == x + q;
    assert a + (x + q) == a + x + q;
    FeedCons(c, x, tail);
    if q == "" {
      DrainStuck(q);
    } else {
      FeedCons(OnData(c, x), q, []);
      assert [q] + [] == [q];
    }
    if a == "" {
      assert [] + [x] + tail == [x] + tail;
    } else {
      assert [a] + [x] + tail == [a] + ([x] + tail);
      FeedCons(START, a, [x] + tail);
    }
  }

  lemma FeedCons(c: Connection, chunk: string, chunks: seq<string>)
    ensures Feed(c, [chunk] + chunks) == Feed(OnData(c, chunk), chunks)
    ensures Join([chunk] + chunks) == chunk + Join(chunks)
  {
    assert ([chunk] + chunks)[1..] == chunks;
  }

  /**
   Turn by turn, the stream has no malformed header, and a zero-length frame only where nothing
   after it can be consumed.
   */
  predicate Clean(s: string)
    decreases |s|
  {
    s == "" ||
    match Next(s)
    case Wait => true
    case Fail(_) => false
    case EmptyFrame(r) => Stuck(r)
    case Blank(r) => Clean(r)
    case Deliver(_, r) => Clean(r)
  }

  lemma {:induction false} CleanOrStuck(s: string)
    ensures Clean(s) ==> Extract(s).Ok?
    ensures Undisturbed(s) <==> Clean(s) || Stuck(s)
    decreases |s|
  {
    hide Next;
    if s != "" && (Next(s).Blank? || Next(s).Deliver?) {
      var r := Next(s).rest;
      CleanOrStuck(r);
      if Extract(r).Err? {
        assert Drain(s) == Extraction([], s);
      } else {
        assert Drain(s).rest == Drain(r).rest;
        if Stuck(r) && !Clean(r) {
          StuckIsOk(r);
        }
      }
    }
  }

  /** A stuck stream that does not throw waits for more. */
  lemma StuckIsOk(s: string)
    requires Stuck(s) && Extract(s).Ok?
    ensures Clean(s)
  {}

  /**
   Chunk independence, for every stream at all: the messages and the rest are the same however
   it is cut exactly when the stream is clean, or nothing of it can be consumed at all.
   */
  lemma ChunkIndependence(s: string)
    ensures ChunkIndependent(s) <==> Clean(s) || Stuck(s)
  {
    CleanOrStuck(s);
    assert "" + s == s;
    hide Clean, Stuck;
    if Undisturbed(s) {
      forall chunks: seq<string> | Join(chunks) == s && "" !in chunks
        ensures Feed(START, chunks) == OnData(START, s)
      {
        FeedUndisturbed(START, chunks);
      }
    } else {
      var chunks := DisturbedShows(s);
    }
  }

  /** Turn by turn, every header parses and no frame is empty; the stream may end inside a message. */
  predicate Parses(s: string)
    decreases |s|
  {
    s == "" ||
    match Next(s)
    case Wait => true
    case Fail(_) => false
    case EmptyFrame(_) => false
    case Blank(r) => Parses(r)
    case Deliver(_, r) => Parses(r)
  }

  lemma {:induction false} ParsesIsClean(s: string)
    requires Parses(s)
    ensures Clean(s)
    decreases |s|
  {
    hide Next;
    if s != "" && (Next(s).Blank? || Next(s).Deliver?) {
      ParsesIsClean(Next(s).rest);
    }
  }

  /** In particular for streams whose headers parse and whose frames are not empty, ended or not. */
  lemma ParsingStreams(s: string)
    requires Parses(s)
    ensures ChunkIndependent(s)
  {
    ParsesIsClean(s);
    ChunkIndependence(s);
  }
}
