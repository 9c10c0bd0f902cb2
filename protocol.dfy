/** The capture endpoint's vocabulary: the two viewport modes, the events it
    streams, and the newline-delimited JSON text those events become on the
    wire (`JSON.stringify(msg) + '\n'` for each message). */
module Protocol {
  import opened TextUtil

  /** A viewport mode of server.js, known here by its `name`. */
  datatype Mode = Desktop | Mobile
  {
    function Name(): (r: string)
      ensures |r| > 0 && forall i :: 0 <= i < |r| ==> IsAsciiLower(r[i])
    {
      match this
      case Desktop => "desktop"
      case Mobile => "mobile"
    }
  }

  /** Distinct modes have distinct names, and the names differ in their
      last character. */
  lemma ModeNamesDiffer(m: Mode, n: Mode)
    ensures m != n ==> m.Name() != n.Name() && m.Name()[|m.Name()| - 1] != n.Name()[|n.Name()| - 1]
  {
  }

  /** One message of the stream: `{ type, data }`. */
  datatype Event =
    | Start(total: nat)
    | Progress(url: string, mode: Mode, jobId: string)
    | Waiting(url: string, mode: Mode, jobId: string)
    | Success(url: string, mode: Mode, filepath: string, jobId: string)
    | JobError(url: string, mode: Mode, error: string, jobId: string)
    | RequestError(error: string)   // type 'error' without url, mode or jobId
    | Fatal(error: string)
    | Done
  {
    /** The message reports the end of one job. */
    predicate IsTerminal()
    {
      Success? || JobError?
    }
  }

  /** The text that `JSON.stringify` writes for a character inside a string
      literal. */
  function EscapeChar(c: char): (r: string)
    ensures |r| > 0
  {
    if c == '"' then "\\\""
    else if c == '\\' then "\\\\"
    else if c == '\U{0008}' then "\\b"
    else if c == '\t' then "\\t"
    else if c == '\n' then "\\n"
    else if c == '\U{000C}' then "\\f"
    else if c == '\r' then "\\r"
    else if (c as int) < 0x20 then "\\u00" + [HexDigit(c as int / 16), HexDigit(c as int % 16)]
    else [c]
  }

  /** Lower-case hexadecimal digit, as `JSON.stringify` writes them. */
  function HexDigit(d: nat): (c: char)
    requires d < 16
    ensures c as int >= 0x30
  {
    if d < 10 then ('0' as int + d) as char else ('a' as int + d - 10) as char
  }

  function EscapeAll(s: string): string
    decreases |s|
  {
    if s == [] then [] else EscapeChar(s[0]) + EscapeAll(s[1..])
  }

  /** A JSON string literal for `s`. */
  function Quote(s: string): (r: string)
    ensures |r| >= 2 && r[0] == '"' && r[|r| - 1] == '"'
  {
    "\"" + EscapeAll(s) + "\""
  }

  /** `"key":value`, the value already in JSON form. */
  function Member(key: string, value: string): string
  {
    Quote(key) + ":" + value
  }

  /** `{m1,m2,...}` */
  function Object(members: seq<string>): (r: string)
    ensures |r| >= 2 && r[0] == '{' && r[|r| - 1] == '}'
  {
    "{" + Join(members) + "}"
  }

  function Join(members: seq<string>): string
    decreases |members|
  {
    if members == [] then []
    else if |members| == 1 then members[0]
    else members[0] + "," + Join(members[1..])
  }

  function JobFields(url: string, mode: Mode, extra: seq<string>, jobId: string): seq<string>
  {
    [Member("url", Quote(url)), Member("mode", Quote(mode.Name()))] + extra + [Member("jobId", Quote(jobId))]
  }

  function Message(tag: string, data: seq<string>): string
  {
    Object([Member("type", Quote(tag)), Member("data", Object(data))])
  }

  /** The `type` field of a message. */
  function Tag(e: Event): string
  {
    match e
    case Start(_) => "start"
    case Progress(_, _, _) => "progress"
    case Waiting(_, _, _) => "waiting"
    case Success(_, _, _, _) => "success"
    case JobError(_, _, _, _) => "error"
    case RequestError(_) => "error"
    case Fatal(_) => "fatal"
    case Done => "done"
  }

  /** The event concerns one job and carries its url, mode and jobId. */
  predicate IsJobEvent(e: Event)
  {
    e.Progress? || e.Waiting? || e.Success? || e.JobError?
  }

  /** The member a job message carries between `mode` and `jobId`. */
  function Extra(e: Event): seq<string>
  {
    match e
    case Progress(_, _, _) => [Member("status", Quote("processing"))]
    case Success(_, _, filepath, _) => [Member("filepath", Quote(filepath))]
    case JobError(_, _, error, _) => [Member("error", Quote(error))]
    case _ => []
  }

  /** The members of a message's `data` object, in the order server.js
      writes them. */
  function Data(e: Event): seq<string>
  {
    if IsJobEvent(e) then JobFields(e.url, e.mode, Extra(e), e.jobId)
    else match e
      case Start(total) => [Member("total", Decimal(total))]
      case RequestError(error) => [Member("error", Quote(error))]
      case Fatal(error) => [Member("error", Quote(error))]
      case _ => []
  }

  /** `JSON.stringify(msg)` for the message objects that server.js builds:
      `{"type":...,"data":{...}}`, except `done`, which has no data. */
  function Serialize(e: Event): (r: string)
  {
    if e.Done? then Object([Member("type", Quote("done"))]) else Message(Tag(e), Data(e))
  }

  /** A character that may appear in a serialized message: nothing below
      U+0020, so in particular no line feed. */
  predicate Printable(s: string)
  {
    forall i :: 0 <= i < |s| ==> s[i] as int >= 0x20
  }

  lemma PrintableAppend(a: string, b: string)
    requires Printable(a) && Printable(b)
    ensures Printable(a + b)
  {
    assert forall i :: |a| <= i < |a + b| ==> (a + b)[i] == b[i - |a|];
  }

  lemma {:induction false} JoinPrintable(members: seq<string>)
    requires forall i :: 0 <= i < |members| ==> Printable(members[i])
    ensures Printable(Join(members))
    decreases |members|
  {
    if |members| > 1 {
      JoinPrintable(members[1..]);
      PrintableAppend(members[0], ",");
      PrintableAppend(members[0] + ",", Join(members[1..]));
    }
  }

  /** Escaping leaves no character below U+0020: control characters
      become `\n`, `\u001f` and the like. */
  lemma EscapeCharPrintable(c: char)
    ensures Printable(EscapeChar(c))
  {
  }

  lemma {:induction false} EscapeAllPrintable(s: string)
    ensures Printable(EscapeAll(s))
    decreases |s|
  {
    if s != [] {
      EscapeCharPrintable(s[0]);
      EscapeAllPrintable(s[1..]);
      PrintableAppend(EscapeChar(s[0]), EscapeAll(s[1..]));
    }
  }

  lemma QuotePrintable(s: string)
    ensures Printable(Quote(s))
  {
    EscapeAllPrintable(s);
    PrintableAppend("\"", EscapeAll(s));
    PrintableAppend("\"" + EscapeAll(s), "\"");
  }

  lemma MemberPrintable(key: string, value: string)
    requires Printable(value)
    ensures Printable(Member(key, value))
  {
    QuotePrintable(key);
    PrintableAppend(Quote(key), ":");
    PrintableAppend(Quote(key) + ":", value);
  }

  lemma ObjectPrintable(members: seq<string>)
    requires forall i :: 0 <= i < |members| ==> Printable(members[i])
    ensures Printable(Object(members))
  {
    JoinPrintable(members);
    PrintableAppend("{", Join(members));
    PrintableAppend("{" + Join(members), "}");
  }

  lemma MessagePrintable(tag: string, data: seq<string>)
    requires forall i :: 0 <= i < |data| ==> Printable(data[i])
    ensures Printable(Message(tag, data))
  {
    ObjectPrintable(data);
    QuotePrintable(tag);
    MemberPrintable("type", Quote(tag));
    MemberPrintable("data", Object(data));
    ObjectPrintable([Member("type", Quote(tag)), Member("data", Object(data))]);
  }

  lemma JobFieldsPrintable(url: string, mode: Mode, extra: seq<string>, jobId: string)
    requires forall i :: 0 <= i < |extra| ==> Printable(extra[i])
    ensures forall i :: 0 <= i < |JobFields(url, mode, extra, jobId)| ==> Printable(JobFields(url, mode, extra, jobId)[i])
  {
    QuotePrintable(url);
    QuotePrintable(mode.Name());
    QuotePrintable(jobId);
    MemberPrintable("url", Quote(url));
    MemberPrintable("mode", Quote(mode.Name()));
    MemberPrintable("jobId", Quote(jobId));
  }

  /** Every serialized message is one line: it opens with `{`, closes with
      `}` and holds no character below U+0020, so no line feed; this is
      what makes the newline-delimited framing unambiguous. */
  lemma SerializeIsOneLine(e: Event)
    ensures |Serialize(e)| >= 2 && Serialize(e)[0] == '{' && Serialize(e)[|Serialize(e)| - 1] == '}'
    ensures Printable(Serialize(e))
    ensures '\n' !in Serialize(e)
  {
    SerializePrintable(e);
  }

  lemma SerializePrintable(e: Event)
    ensures Printable(Serialize(e))
  {
    if e.Done? {
      QuotePrintable("done");
      MemberPrintable("type", Quote("done"));
      ObjectPrintable([Member("type", Quote("done"))]);
    } else {
      DataPrintable(e);
      MessagePrintable(Tag(e), Data(e));
    }
  }

  lemma DataPrintable(e: Event)
    ensures forall i :: 0 <= i < |Data(e)| ==> Printable(Data(e)[i])
  {
    if IsJobEvent(e) {
      ExtraPrintable(e);
      JobFieldsPrintable(e.url, e.mode, Extra(e), e.jobId);
    } else if e.Start? {
      MemberPrintable("total", Decimal(e.total));
    } else if e.RequestError? || e.Fatal? {
      QuotePrintable(e.error);
      MemberPrintable("error", Quote(e.error));
    }
  }

  lemma ExtraPrintable(e: Event)
    ensures forall i :: 0 <= i < |Extra(e)| ==> Printable(Extra(e)[i])
  {
    match e
    case Progress(_, _, _) =>
      QuotePrintable("processing");
      MemberPrintable("status", Quote("processing"));
    case Success(_, _, filepath, _) =>
      QuotePrintable(filepath);
      MemberPrintable("filepath", Quote(filepath));
    case JobError(_, _, error, _) =>
      QuotePrintable(error);
      MemberPrintable("error", Quote(error));
    case _ =>
  }

  /** The text of each message, in order. */
  function Serialized(events: seq<Event>): seq<string>
  {
    seq(|events|, i requires 0 <= i < |events| => Serialize(events[i]))
  }

  /** Each text followed by a line feed. */
  function Frame(texts: seq<string>): string
    decreases |texts|
  {
    if texts == [] then [] else texts[0] + "\n" + Frame(texts[1..])
  }

  /** What `sendMsg` puts on the response for a sequence of messages: each
      serialized message followed by a line feed. */
  function Wire(events: seq<Event>): string
  {
    Frame(Serialized(events))
  }
}
