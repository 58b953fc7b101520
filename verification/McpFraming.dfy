/**
 Incremental framing of the MCP stdio server: `Content-Length` frames and newline-delimited
 messages mixed in one character stream.
 */
module McpFraming {
  import opened Prelude
  import opened Text

  datatype FramingError = MissingContentLength | InvalidContentLength

  const PREFIX := "Content-Length:"
  const CRLF := "\r\n"
  const BLANK_LINE := "\r\n\r\n"

  /** From here on a numeral reads as Infinity: 2^1024 - 2^970. */
  const INFINITE_LENGTH: nat :=
    0xFFFFFFFFFFFFFC00000000000000000000000000000000000000000000000000_0000000000000000000000000000000000000000000000000000000000000000_0000000000000000000000000000000000000000000000000000000000000000_0000000000000000000000000000000000000000000000000000000000000000

  // ---- the header ----

  function FindContentLength(headers: seq<string>): Option<string> {
    if headers == [] then None
    else if StartsWith(Lower(headers[0]), "content-length:") then Some(headers[0])
    else FindContentLength(headers[1..])
  }

  /** The declared length, or None where the source throws "Invalid Content-Length header". */
  function DeclaredLength(header: string): (n: Option<nat>) {
    var parts := Split(header, ":");
    match ParseInt(if |parts| > 1 then Trim(parts[1]) else "")
    case None => None
    case Some(n) => if n < 0 || n >= INFINITE_LENGTH then None else Some(n)
  }

  datatype Parsed = Parsed(message: Option<string>, rest: string)

  function ParseContentLengthMessage(buffer: string): (r: Result<Parsed, FramingError>)
    ensures r.Ok? && r.value.message.None? ==> r.value.rest == buffer
    ensures r.Ok? && r.value.message.Some? ==> |r.value.rest| < |buffer|
  {
    match IndexOf(buffer, BLANK_LINE)
    case None => Ok(Parsed(None, buffer))
    case Some(headerEnd) =>
      match FindContentLength(Split(buffer[..headerEnd], CRLF))
      case None => Err(MissingContentLength)
      case Some(header) =>
        match DeclaredLength(header)
        case None => Err(InvalidContentLength)
        case Some(length) =>
          var start := headerEnd + 4;
          if |buffer| < start + length then Ok(Parsed(None, buffer))
          else Ok(Parsed(Some(buffer[start..start + length]), buffer[start + length..]))
  }

  // ---- one turn of the extraction loop ----

  /** What one turn of the loop does with a non-empty `rest`. */
  datatype Step =
    | Deliver(message: string, rest: string)
    | Blank(rest: string)      // a line of white space: consumed, nothing delivered
    | EmptyFrame(rest: string) // a frame of length 0: consumed, and the loop returns
    | Wait                     // nothing complete yet: the loop returns
    | Fail(error: FramingError)
  {
    predicate Progress() { Deliver? || Blank? || EmptyFrame? }

    function Then(more: string): Step {
      match this
      case Deliver(m, r) => Deliver(m, r + more)
      case Blank(r) => Blank(r + more)
      case EmptyFrame(r) => EmptyFrame(r + more)
      case _ => this
    }

    function Messages(): seq<string> {
      if Deliver? then [message] else []
    }
  }

  function Next(s: string): (step: Step)
    requires s != ""
    ensures step.Progress() ==> |step.rest| < |s|
    ensures step.Deliver? ==> step.message != ""
  {
    if StartsWith(s, PREFIX) then
      match ParseContentLengthMessage(s)
      case Err(e) => Fail(e)
      case Ok(parsed) =>
        if parsed.message.None? then Wait
        else if parsed.message.value == "" then EmptyFrame(parsed.rest)
        else Deliver(parsed.message.value, parsed.rest)
    else
      match IndexOf(s, "\n")
      case None => Wait
      case Some(i) =>
        var line := Trim(s[..i]);
        if line == "" then Blank(s[i + 1..]) else Deliver(line, s[i + 1..])
  }

  datatype Extraction = Extraction(messages: seq<string>, rest: string)

  /** `extractMcpMessages` as a recursion; a thrown error is an Err and loses the messages. */
  function Extract(s: string): Result<Extraction, FramingError>
    decreases |s|
  {
    if s == "" then Ok(Extraction([], ""))
    else
      match Next(s)
      case Wait => Ok(Extraction([], s))
      case Fail(e) => Err(e)
      case EmptyFrame(r) => Ok(Extraction([], r))
      case Blank(r) => Extract(r)
      case Deliver(m, r) =>
        After([m], Extract(r))
  }

  /** An extraction of the remainder, with the messages found before it. */
  function After(messages: seq<string>, r: Result<Extraction, FramingError>): Result<Extraction, FramingError> {
    match r
    case Err(e) => Err(e)
    case Ok(x) => Ok(Extraction(messages + x.messages, x.rest))
  }

  lemma AfterAfter(a: seq<string>, b: seq<string>, r: Result<Extraction, FramingError>)
    ensures After(a, After(b, r)) == After(a + b, r)
    ensures After([], r) == r
  {
    if r.Ok? {
      assert (a + b) + r.value.messages == a + (b + r.value.messages);
      assert [] + r.value.messages == r.value.messages;
    }
  }

  /** The loop of the source. */
  method ExtractMcpMessages(buffer: string) returns (r: Result<Extraction, FramingError>)
    ensures r == Extract(buffer)
  {
    hide ParseContentLengthMessage, IndexOf, Trim, StartsWith;
    var messages: seq<string> := [];
    var rest := buffer;
    AfterAfter([], [], Extract(rest));
    while rest != ""
      invariant Extract(buffer) == After(messages, Extract(rest))
      decreases |rest|
    {
      if StartsWith(rest, PREFIX) {
        match ParseContentLengthMessage(rest) {
          case Err(e) =>
            return Err(e);
          case Ok(parsed) =>
            if parsed.message == None || parsed.message == Some("") {
              assert messages + [] == messages;
              return Ok(Extraction(messages, parsed.rest));
            }
            AfterAfter(messages, [parsed.message.value], Extract(parsed.rest));
            messages := messages + [parsed.message.value];
            rest := parsed.rest;
        }
      } else {
        var newline := IndexOf(rest, "\n");
        if newline == None {
          assert messages + [] == messages;
          return Ok(Extraction(messages, rest));
        }
        var line := Trim(rest[..newline.value]);
        rest := rest[newline.value + 1..];
        if line != "" {
          AfterAfter(messages, [line], Extract(rest));
          messages := messages + [line];
        }
      }
    }
    assert messages + [] == messages;
    return Ok(Extraction(messages, rest));
  }

  // ---- the connection: `buffer += chunk; extract; keep rest` ----

  datatype Connection = Connection(delivered: seq<string>, buffer: string)

  const START := Connection([], "")

  /** What one event delivers and leaves: when extraction throws, everything stays buffered. */
  function Drain(s: string): Extraction {
    match Extract(s)
    case Ok(x) => x
    case Err(_) => Extraction([], s)
  }

  /** One "data" event. */
  function OnData(c: Connection, chunk: string): Connection {
    var x := Drain(c.buffer + chunk);
    Connection(c.delivered + x.messages, x.rest)
  }

  function Feed(c: Connection, chunks: seq<string>): Connection
    decreases chunks
  {
    if chunks == [] then c else Feed(OnData(c, chunks[0]), chunks[1..])
  }

  class StdioServer {
    var buffer: string
    ghost var delivered: seq<string>

    ghost function View(): Connection
      reads this
    {
      Connection(delivered, buffer)
    }

    constructor ()
      ensures View() == START
    {
      buffer, delivered := "", [];
    }

    method Data(chunk: string) returns (messages: seq<string>)
      modifies this
      ensures View() == OnData(old(View()), chunk)
      ensures delivered == old(delivered) + messages
    {
      buffer := buffer + chunk;
      var extracted := ExtractMcpMessages(buffer);
      messages := [];
      if extracted.Ok? {
        buffer := extracted.value.rest;
        messages := extracted.value.messages;
      }
      delivered := delivered + messages;
    }
  }
}
