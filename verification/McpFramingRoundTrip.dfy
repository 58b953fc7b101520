/** Writing a message in either framing and reading it back, under any chunking. */
module McpFramingRoundTrip {
  import opened Prelude
  import opened Text
  import opened McpFraming
  import opened McpFramingProofs

  predicate AllSpaces(s: string) {
    forall i :: 0 <= i < |s| ==> IsSpace(s[i])
  }

  /**
   A message as a sender may write it: a frame, with any further headers after its
   `Content-Length`, or a line, with any white space around it (a line that ends in CRLF has '\r').
   */
  datatype Unit = Framed(body: string, more: seq<string>) | Line(text: string, left: string, right: string) {
    predicate Valid() {
      match this
      case Framed(body, more) =>
        |body| < INFINITE_LENGTH && forall i :: 0 <= i < |more| ==> more[i] != "" && '\r' !in more[i]
      case Line(text, left, right) =>
        && text != "" && Trim(text) == text && '\n' !in text && !StartsWith(text, PREFIX)
        && AllSpaces(left) && AllSpaces(right) && '\n' !in left && '\n' !in right
    }

    function Encode(): string {
      match this
      case Framed(body, more) => Headers(|body|, more) + BLANK_LINE + body
      case Line(text, left, right) => left + text + right + "\n"
    }

    function Message(): string {
      match this
      case Framed(body, _) => body
      case Line(text, _, _) => text
    }

    /** A frame of length zero. */
    predicate Empty() { Framed? && body == "" }
  }

  /** The header block of a frame. */
  function Headers(n: nat, more: seq<string>): string {
    Header(n) + Further(more)
  }

  function Further(more: seq<string>): string {
    if more == [] then "" else CRLF + more[0] + Further(more[1..])
  }

  function Header(n: nat): string {
    PREFIX + " " + Digits(n, 10)
  }

  function EncodeAll(units: seq<Unit>): string {
    if units == [] then "" else units[0].Encode() + EncodeAll(units[1..])
  }

  function Bodies(units: seq<Unit>): seq<string> {
    seq(|units|, i requires 0 <= i < |units| => units[i].Message())
  }

  predicate AllValid(units: seq<Unit>) {
    forall i :: 0 <= i < |units| ==> units[i].Valid()
  }

  predicate NoneEmpty(units: seq<Unit>) {
    forall i :: 0 <= i < |units| ==> !units[i].Empty()
  }

  // ---- reading one header ----

  lemma NoMatchWithout(s: string, p: string, n: nat)
    requires p != "" && n <= |s| && p[0] !in s[..n]
    ensures forall k :: 0 <= k < n ==> !MatchesAt(s, p, k)
  {
    forall k | 0 <= k < n
      ensures !MatchesAt(s, p, k)
    {
      assert s[..n][k] == s[k];
      if k + |p| <= |s| {
        assert s[k..k + |p|][0] == s[k];
      }
    }
  }

  lemma IndexOfWithout(s: string, p: string)
    requires p != "" && p[0] !in s
    ensures IndexOf(s, p) == None
  {
    assert s[..|s|] == s;
    NoMatchWithout(s, p, |s|);
  }

  lemma NotInDigits(d: string, c: char)
    requires AllDigits(d) && !IsDigit(c)
    ensures c !in d
  {}

  lemma HeaderCharacters(n: nat)
    ensures '\r' !in Header(n) && '\n' !in Header(n)
    ensures ':' !in Header(n)[..14] && ':' !in Header(n)[15..]
    ensures Header(n)[..14] == "Content-Length" && Header(n)[14] == ':' && Header(n)[15..] == " " + Digits(n, 10)
  {
    hide Digits;
    var h, d := Header(n), Digits(n, 10);
    NotInDigits(d, '\r');
    NotInDigits(d, '\n');
    NotInDigits(d, ':');
    assert '\r' !in PREFIX && '\n' !in PREFIX && ':' !in "Content-Length";
    assert PREFIX[..14] == "Content-Length";
    assert h[..14] == PREFIX[..14];
    assert h[15..] == " " + d;
  }

  lemma LowerHeader(h: string)
    requires |h| >= 15 && h[..14] == "Content-Length" && h[14] == ':'
    ensures StartsWith(Lower(h), "content-length:")
  {
    assert h[..15] == "Content-Length:";
    var l := Lower(h)[..15];
    assert l == Lower(h[..15]);
    assert Lower("Content-Length:") == "content-length:";
  }

  lemma DeclaredLengthOfHeader(n: nat)
    requires n < INFINITE_LENGTH
    ensures DeclaredLength(Header(n)) == Some(n)
  {
    hide Digits, Lower, ParseInt;
    var h, d := Header(n), Digits(n, 10);
    HeaderCharacters(n);
    assert h[14..15] == ":";
    NoMatchWithout(h, ":", 14);
    IndexOfIs(h, ":", 14);
    IndexOfWithout(h[15..], ":");
    assert Split(h, ":") == [h[..14]] + Split(h[15..], ":") == ["Content-Length", " " + d];
    ParseIntOfDigits(n);
    assert TrimStart(" " + d) == TrimStart(d) by { assert (" " + d)[1..] == d; }
  }

  /** Every carriage return starts a line break that another character follows: there is no blank line. */
  predicate NoBlankLine(s: string) {
    forall i :: 0 <= i < |s| && s[i] == '\r' ==> i + 2 < |s| && s[i + 2] != '\r'
  }

  lemma NoBlankLineJoin(s: string, t: string)
    requires NoBlankLine(s) && NoBlankLine(t)
    ensures NoBlankLine(s + t)
  {
    forall i | 0 <= i < |s + t| && (s + t)[i] == '\r'
      ensures i + 2 < |s + t| && (s + t)[i + 2] != '\r'
    {
      if i >= |s| {
        assert t[i - |s|] == '\r';
      }
    }
  }

  lemma {:induction false} FurtherHasNoBlankLine(more: seq<string>)
    requires forall i :: 0 <= i < |more| ==> more[i] != "" && '\r' !in more[i]
    ensures NoBlankLine(Further(more))
  {
    if more != [] {
      FurtherHasNoBlankLine(more[1..]);
      var first := CRLF + more[0];
      assert forall i :: 2 <= i < |first| ==> first[i] == more[0][i - 2];
      forall i | 0 <= i < |first| && first[i] == '\r'
        ensures i + 2 < |first| && first[i + 2] != '\r'
      {
      }
      NoBlankLineJoin(first, Further(more[1..]));
    }
  }

  lemma HeadersHaveNoBlankLine(n: nat, more: seq<string>)
    requires forall i :: 0 <= i < |more| ==> more[i] != "" && '\r' !in more[i]
    ensures NoBlankLine(Headers(n, more))
  {
    HeaderCharacters(n);
    FurtherHasNoBlankLine(more);
    hide Header, Further;
    assert NoBlankLine(Header(n));
    NoBlankLineJoin(Header(n), Further(more));
  }

  /** The first header line is the `Content-Length` one. */
  lemma FirstHeader(n: nat, more: seq<string>)
    ensures Split(Headers(n, more), CRLF)[0] == Header(n)
  {
    HeaderCharacters(n);
    hide Header;
    var h, s := Header(n), Headers(n, more);
    if more == [] {
      assert s == h;
      IndexOfWithout(h, CRLF);
    } else {
      assert s[..|h|] == h && s[|h|..|h| + 2] == CRLF;
      NoMatchWithout(s, CRLF, |h|);
      IndexOfIs(s, CRLF, |h|);
    }
  }

  lemma FramePieces(body: string, more: seq<string>, t: string)
    requires forall i :: 0 <= i < |more| ==> more[i] != "" && '\r' !in more[i]
    ensures var h := Headers(|body|, more);
            var s := Framed(body, more).Encode() + t;
            StartsWith(s, PREFIX) && IndexOf(s, BLANK_LINE) == Some(|h|) && s[..|h|] == h &&
            |h| + 4 + |body| <= |s| && s[|h| + 4..|h| + 4 + |body|] == body && s[|h| + 4 + |body|..] == t
  {
    HeaderStarts(|body|, more);
    HeadersHaveNoBlankLine(|body|, more);
    hide Headers;
    var h := Headers(|body|, more);
    var s := Framed(body, more).Encode() + t;
    assert s == h + BLANK_LINE + body + t;
    assert s[..|h|] == h;
    assert s[|h|..|h| + 4] == BLANK_LINE;
    forall k | 0 <= k < |h|
      ensures !MatchesAt(s, BLANK_LINE, k)
    {
      assert s[k] == h[k];
      if h[k] == '\r' {
        assert s[k + 2] == h[k + 2] != '\r';
        assert k + 4 <= |s| ==> s[k..k + 4][2] == s[k + 2];
      } else {
        assert k + 4 <= |s| ==> s[k..k + 4][0] == s[k];
      }
    }
    IndexOfIs(s, BLANK_LINE, |h|);
    assert s[..|PREFIX|] == h[..|PREFIX|];
  }

  lemma HeaderStarts(n: nat, more: seq<string>)
    ensures |Headers(n, more)| >= |PREFIX| && Headers(n, more)[..|PREFIX|] == PREFIX
  {
    hide Digits, Further;
    assert Header(n)[..|PREFIX|] == PREFIX;
  }

  lemma NextOfFrame(body: string, more: seq<string>, t: string)
    requires Framed(body, more).Valid()
    ensures Framed(body, more).Encode() + t != ""
    ensures Next(Framed(body, more).Encode() + t) == if body == "" then EmptyFrame(t) else Deliver(body, t)
  {
    FramePieces(body, more, t);
    FirstHeader(|body|, more);
    HeaderCharacters(|body|);
    DeclaredLengthOfHeader(|body|);
    hide Digits, Lower, DeclaredLength, IndexOf, Header;
    LowerHeader(Header(|body|));
    hide Headers, Split;
    assert FindContentLength(Split(Headers(|body|, more), CRLF)) == Some(Header(|body|));
  }

  // ---- white space around a line ----

  lemma {:induction false} TrimStartSkips(left: string, s: string)
    requires AllSpaces(left) && (s == "" || !IsSpace(s[0]))
    ensures TrimStart(left + s) == s
  {
    if left == "" {
      assert left + s == s;
    } else {
      assert (left + s)[1..] == left[1..] + s && (left + s)[0] == left[0];
      TrimStartSkips(left[1..], s);
    }
  }

  lemma {:induction false} TrimEndSkips(s: string, right: string)
    requires AllSpaces(right) && (s == "" || !IsSpace(s[|s| - 1]))
    ensures TrimEnd(s + right) == s
  {
    if right == "" {
      assert s + right == s;
    } else {
      var u := s + right;
      assert u[..|u| - 1] == s + right[..|right| - 1] && u[|u| - 1] == right[|right| - 1];
      TrimEndSkips(s, right[..|right| - 1]);
    }
  }

  lemma TrimPadded(left: string, text: string, right: string)
    requires text != "" && Trim(text) == text && AllSpaces(left) && AllSpaces(right)
    ensures Trim(left + text + right) == text
  {
    assert left + text + right == left + (text + right);
    TrimStartSkips(left, text + right);
    TrimEndSkips(text, right);
  }

  /** White space before or after a line that is no header does not make it one. */
  lemma PaddedIsNoHeader(left: string, text: string, right: string, t: string)
    requires Line(text, left, right).Valid()
    ensures !StartsWith(left + text + right + "\n" + t, PREFIX)
  {
    var s := left + text + right + "\n" + t;
    assert forall i :: 0 <= i < |PREFIX| ==> !IsSpace(PREFIX[i]);
    if left != "" {
      assert s[0] == left[0];
      DiffersAt(s, 0);
    } else if |text| < |PREFIX| {
      assert s[|text|] == (right + "\n")[0];
      DiffersAt(s, |text|);
    } else {
      assert text[..|PREFIX|] == s[..|PREFIX|];
    }
  }

  lemma DiffersAt(s: string, i: nat)
    requires i < |s| && i < |PREFIX| && s[i] != PREFIX[i]
    ensures !StartsWith(s, PREFIX)
  {
    if |s| >= |PREFIX| {
      assert s[..|PREFIX|][i] == s[i];
    }
  }

  lemma NextOfLine(text: string, left: string, right: string, t: string)
    requires Line(text, left, right).Valid()
    ensures Line(text, left, right).Encode() + t != ""
    ensures Next(Line(text, left, right).Encode() + t) == Deliver(text, t)
  {
    TrimPadded(left, text, right);
    PaddedIsNoHeader(left, text, right, t);
    hide Trim, StartsWith;
    var line := left + text + right;
    var s := Line(text, left, right).Encode() + t;
    assert s == line + "\n" + t;
    assert s[..|line|] == line && s[|line|..|line| + 1] == "\n" && s[|line| + 1..] == t;
    NoMatchWithout(s, "\n", |line|);
    IndexOfIs(s, "\n", |line|);
  }

  /** A line of white space is skipped. */
  lemma NextOfBlank(spaces: string, t: string)
    requires AllSpaces(spaces) && '\n' !in spaces
    ensures spaces + "\n" + t != ""
    ensures Next(spaces + "\n" + t) == Blank(t)
  {
    var s := spaces + "\n" + t;
    assert s[..|spaces|] == spaces && s[|spaces|..|spaces| + 1] == "\n" && s[|spaces| + 1..] == t;
    NoMatchWithout(s, "\n", |spaces|);
    IndexOfIs(s, "\n", |spaces|);
    TrimStartSkips(spaces, "");
    assert spaces + "" == spaces;
    assert IsSpace(s[0]);
    DiffersAt(s, 0);
  }

  /** A first header whose length is no number, or a negative one, makes the extraction throw. */
  lemma BadLengthThrows(value: string, t: string)
    requires '\r' !in value && ':' !in value
    requires ParseInt(Trim(value)).None? || ParseInt(Trim(value)).value < 0
    ensures PREFIX + value + BLANK_LINE + t != ""
    ensures Next(PREFIX + value + BLANK_LINE + t) == Fail(InvalidContentLength)
  {
    BadLength(value);
    hide ParseInt, Trim, Lower, DeclaredLength, Split, FindContentLength;
    var h := PREFIX + value;
    assert PREFIX + value + BLANK_LINE + t == h + BLANK_LINE + t;
    assert '\r' !in PREFIX;
    BlankLineAt(h, t);
    OneHeader(h);
    hide IndexOf;
  }

  lemma BlankLineAt(h: string, t: string)
    requires '\r' !in h && |h| >= |PREFIX| && h[..|PREFIX|] == PREFIX
    ensures var s := h + BLANK_LINE + t;
            StartsWith(s, PREFIX) && IndexOf(s, BLANK_LINE) == Some(|h|) && s[..|h|] == h
  {
    var s := h + BLANK_LINE + t;
    assert s[..|h|] == h && s[|h|..|h| + 4] == BLANK_LINE && s[..|PREFIX|] == PREFIX;
    NoMatchWithout(s, BLANK_LINE, |h|);
    IndexOfIs(s, BLANK_LINE, |h|);
  }

  lemma OneHeader(h: string)
    requires '\r' !in h && |h| >= 15 && h[..14] == "Content-Length" && h[14] == ':'
    ensures FindContentLength(Split(h, CRLF)) == Some(h)
  {
    IndexOfWithout(h, CRLF);
    LowerHeader(h);
    hide IndexOf, Lower;
    assert Split(h, CRLF) == [h];
  }

  lemma BadLength(value: string)
    requires ':' !in value
    requires ParseInt(Trim(value)).None? || ParseInt(Trim(value)).value < 0
    ensures DeclaredLength(PREFIX + value) == None
    ensures (PREFIX + value)[..14] == "Content-Length" && (PREFIX + value)[14] == ':'
  {
    hide ParseInt, Trim;
    var h := PREFIX + value;
    assert ':' !in "Content-Length" && PREFIX[..14] == "Content-Length";
    assert h[..14] == PREFIX[..14] && h[15..] == value && h[14..15] == ":";
    NoMatchWithout(h, ":", 14);
    IndexOfIs(h, ":", 14);
    IndexOfWithout(h[15..], ":");
    assert Split(h, ":") == [h[..14]] + Split(h[15..], ":") == ["Content-Length", value];
  }

  /** One turn on an encoded message takes exactly that message. */
  lemma NextOfUnit(u: Unit, t: string)
    requires u.Valid()
    ensures u.Encode() + t != ""
    ensures Next(u.Encode() + t) == if u.Empty() then EmptyFrame(t) else Deliver(u.Message(), t)
  {
    match u
    case Framed(body, more) => NextOfFrame(body, more, t);
    case Line(text, left, right) => NextOfLine(text, left, right, t);
  }

  // ---- streams of encoded messages ----

  /** Extraction of a stream of non-empty messages returns them all and leaves nothing. */
  lemma {:induction false} RoundTrip(units: seq<Unit>)
    requires AllValid(units) && NoneEmpty(units)
    ensures Extract(EncodeAll(units)) == Ok(Extraction(Bodies(units), ""))
  {
    hide Next, Unit.Valid, Unit.Encode;
    if units == [] {
      assert Bodies(units) == [];
    } else {
      NextOfUnit(units[0], EncodeAll(units[1..]));
      assert NoneEmpty(units[1..]);
      RoundTrip(units[1..]);
      assert [units[0].Message()] + Bodies(units[1..]) == Bodies(units);
      calc {
        Extract(EncodeAll(units));
        After([units[0].Message()], Extract(EncodeAll(units[1..])));
        Ok(Extraction(Bodies(units), ""));
      }
    }
  }

  /** However the bytes are cut up, the server delivers what the client wrote, in order. */
  lemma RoundTripInChunks(units: seq<Unit>, chunks: seq<string>)
    requires AllValid(units) && NoneEmpty(units)
    requires Join(chunks) == EncodeAll(units)
    ensures Feed(START, chunks) == Connection(Bodies(units), "")
  {
    hide Next, AllValid, EncodeAll, Join, Feed, Extract;
    RoundTrip(units);
    assert "" + Join(chunks) == Join(chunks);
    FeedUndisturbed(START, chunks);
    assert [] + Bodies(units) == Bodies(units);
  }

  /** A message that has not fully arrived is waited for. */
  lemma PartialWaits(u: Unit, p: string)
    requires u.Valid() && p < u.Encode() && p != ""
    ensures Next(p).Wait?
  {
    var more := u.Encode()[|p|..];
    assert p + more == u.Encode() && more != "";
    hide Unit.Valid, Unit.Encode;
    WaitsForMore(u, p, more);
  }

  lemma WaitsForMore(u: Unit, p: string, more: string)
    requires u.Valid() && p + more == u.Encode() && p != "" && more != ""
    ensures Next(p).Wait?
  {
    hide Next, Unit.Valid, Unit.Encode;
    assert u.Encode() + "" == p + more;
    NextOfUnit(u, "");
    if !Next(p).Wait? {
      NextStable(p, more);
    }
  }

  /** Extraction of whole messages and the start of another returns the former and keeps the latter. */
  lemma {:induction false} RoundTripPartial(units: seq<Unit>, u: Unit, p: string)
    requires AllValid(units) && NoneEmpty(units) && u.Valid() && p < u.Encode()
    ensures Extract(EncodeAll(units) + p) == Ok(Extraction(Bodies(units), p)) && Parses(EncodeAll(units) + p)
  {
    hide Next, Unit.Valid, Unit.Encode;
    if units == [] {
      assert EncodeAll(units) + p == p && Bodies(units) == [];
      if p != "" {
        PartialWaits(u, p);
      }
    } else {
      var first, later := units[0], units[1..];
      var t := EncodeAll(later) + p;
      assert EncodeAll(units) + p == first.Encode() + t;
      NextOfUnit(first, t);
      assert NoneEmpty(later);
      RoundTripPartial(later, u, p);
      assert [first.Message()] + Bodies(later) == Bodies(units);
      assert Extract(first.Encode() + t) == After([first.Message()], Extract(t));
    }
  }

  /** At any moment, however the bytes are cut up, the server has delivered just the messages that have fully arrived. */
  lemma PartialInChunks(units: seq<Unit>, u: Unit, p: string, chunks: seq<string>)
    requires AllValid(units) && NoneEmpty(units) && u.Valid() && p < u.Encode()
    requires Join(chunks) == EncodeAll(units) + p
    ensures Feed(START, chunks) == Connection(Bodies(units), p)
  {
    var s := EncodeAll(units) + p;
    RoundTripPartial(units, u, p);
    ParsesIsClean(s);
    CleanOrStuck(s);
    hide Next, AllValid, EncodeAll, Join, Feed, Extract, Parses, Clean, Stuck, Undisturbed;
    assert "" + Join(chunks) == Join(chunks);
    FeedUndisturbed(START, chunks);
    assert [] + Bodies(units) == Bodies(units);
  }

  /**
   With zero-length frames among the messages: the chunking is invisible exactly when no such
   frame has anything after it.
   */
  lemma EmptyFramesShow(units: seq<Unit>)
    requires AllValid(units)
    ensures ChunkIndependent(EncodeAll(units)) <==> forall i :: 0 <= i < |units| - 1 ==> !units[i].Empty()
  {
    UndisturbedUnits(units);
    ChunkIndependence(EncodeAll(units));
    CleanOrStuck(EncodeAll(units));
    hide Clean, Stuck, Undisturbed, EncodeAll;
  }

  lemma {:induction false} UndisturbedUnits(units: seq<Unit>)
    requires AllValid(units)
    ensures Undisturbed(EncodeAll(units)) <==> forall i :: 0 <= i < |units| - 1 ==> !units[i].Empty()
  {
    hide Next, Unit.Valid, Unit.Encode;
    if units != [] {
      var u, later := units[0], units[1..];
      NextOfUnit(u, EncodeAll(later));
      if u.Empty() {
        if later != [] {
          NextOfUnit(later[0], EncodeAll(later[1..]));
        }
      } else {
        UndisturbedUnits(later);
        ExtractNeverLoses(later);
        assert forall i :: 0 <= i < |later| - 1 ==> later[i] == units[i + 1];
        assert (forall i :: 0 <= i < |units| - 1 ==> !units[i].Empty()) <==>
               (forall i :: 0 <= i < |later| - 1 ==> !later[i].Empty()) by {
          assert forall i :: 1 <= i < |units| - 1 ==> units[i] == later[i - 1];
        }
      }
    }
  }

  lemma {:induction false} ExtractNeverLoses(units: seq<Unit>)
    requires AllValid(units)
    ensures Extract(EncodeAll(units)).Ok?
  {
    hide Next, Unit.Valid, Unit.Encode;
    if units != [] {
      NextOfUnit(units[0], EncodeAll(units[1..]));
      ExtractNeverLoses(units[1..]);
    }
  }
}
