/**
  * The order stream on the wire (api/v1/orders_stream.py:80-85, streams/heartbeat.py), read by a
  * client that parses event streams as section 9.2.6 of the WHATWG HTML standard says (without the
  * leading byte order mark, which the server never sends).
  */
module EventStream {
  import opened Decimals
  import opened Heartbeat
  import C = OrderChannel
  import R = RecentOrders

  const NEWLINE := '\n'
  const RETURN := '\r'
  const COMMENT := ": keepalive\n\n"

  function TypeName(kind: C.Kind): string {
    match kind
    case Bootstrap => "bootstrap"
    case OrderUpdate => "order"
  }

  // `encode` is the JSON text of a payload.
  function Render(encode: R.Payload -> string, e: C.Event): string {
    "id: " + Decimal(e.id) + "\n" + "event: " + TypeName(e.kind) + "\n" + "data: " + encode(e.payload) + "\n\n"
  }

  predicate OnOneLine(s: string) {
    NEWLINE !in s && RETURN !in s
  }

  // JSON on one line, as json.dumps writes it.
  ghost predicate OneLine(encode: R.Payload -> string) {
    forall p :: OnOneLine(encode(p))
  }

  // ---- The client ----

  datatype Message = Message(kind: string, data: string, lastEventId: string)

  // `line` is the line read so far; `data`, `kind` and `id` are the standard's buffers. `afterReturn`
  // says that the last character was a carriage return: a line feed then belongs to that line's end.
  datatype Client = Client(line: string, data: string, kind: string, id: string, received: seq<Message>,
                           afterReturn: bool)

  const START := Client("", "", "", "", [], false)

  function IndexOf(s: string, c: char): (i: nat)
    ensures i <= |s| && (i < |s| ==> s[i] == c) && c !in s[..i]
  {
    if s == "" || s[0] == c then 0
    else
      var rest := IndexOf(s[1..], c);
      assert s[..1 + rest] == [s[0]] + s[1..][..rest];
      1 + rest
  }

  function Value(line: string): string {
    var i := IndexOf(line, ':');
    if i >= |line| then ""
    else
      var v := line[i + 1..];
      if v != "" && v[0] == ' ' then v[1..] else v
  }

  function Dispatch(c: Client): Client {
    if c.data == "" then Client("", "", "", c.id, c.received, false)
    else
      var m := Message(if c.kind == "" then "message" else c.kind, c.data[..|c.data| - 1], c.id);
      Client("", "", "", c.id, c.received + [m], false)
  }

  function Process(c: Client, field: string, value: string): Client {
    if field == "event" then Client("", c.data, value, c.id, c.received, false)
    else if field == "data" then Client("", c.data + value + "\n", c.kind, c.id, c.received, false)
    else if field == "id" && '\0' !in value then Client("", c.data, c.kind, value, c.received, false)
    else Client("", c.data, c.kind, c.id, c.received, false)
  }

  function EndLine(c: Client, line: string): Client {
    if line == "" then Dispatch(c)
    else if line[0] == ':' then Client("", c.data, c.kind, c.id, c.received, false)
    else Process(c, line[..IndexOf(line, ':')], Value(line))
  }

  function FeedChar(c: Client, ch: char): Client {
    if ch == NEWLINE then (if c.afterReturn then c.(afterReturn := false) else EndLine(c, c.line))
    else if ch == RETURN then EndLine(c, c.line).(afterReturn := true)
    else Client(c.line + [ch], c.data, c.kind, c.id, c.received, false)
  }

  function Feed(c: Client, text: string): Client {
    if text == "" then c else FeedChar(Feed(c, text[..|text| - 1]), text[|text| - 1])
  }

  lemma {:induction false} FeedConcat(c: Client, s: string, t: string)
    ensures Feed(c, s + t) == Feed(Feed(c, s), t)
    decreases |t|
  {
    if t == "" {
      assert s + t == s;
    } else {
      assert (s + t)[..|s + t| - 1] == s + t[..|t| - 1];
      FeedConcat(c, s, t[..|t| - 1]);
    }
  }

  lemma {:induction false} FeedPartOfLine(c: Client, s: string)
    requires !c.afterReturn && OnOneLine(s)
    ensures Feed(c, s) == Client(c.line + s, c.data, c.kind, c.id, c.received, false)
  {
    if s == "" {
      assert c.line + s == c.line;
    } else {
      var front := s[..|s| - 1];
      FeedPartOfLine(c, front);
      assert c.line + front + [s[|s| - 1]] == c.line + s;
    }
  }

  lemma FeedLine(c: Client, line: string)
    requires c.line == "" && !c.afterReturn && OnOneLine(line)
    ensures Feed(c, line + "\n") == EndLine(Client(line, c.data, c.kind, c.id, c.received, false), line)
  {
    FeedPartOfLine(c, line);
    assert (line + "\n")[..|line|] == line;
    assert c.line + line == line;
  }

  lemma FieldLine(c: Client, field: string, value: string)
    requires c.line == "" && !c.afterReturn && field != "" && ':' !in field && OnOneLine(field) && OnOneLine(value)
    ensures Feed(c, field + ": " + value + "\n") == Process(c, field, value)
  {
    var line := field + ": " + value;
    FieldOf(field, value);
    assert OnOneLine(line);
    FeedLine(c, line);
    assert line[0] == field[0];
    EndField(Client(line, c.data, c.kind, c.id, c.received, false), line);
    ProcessClears(c, Client(line, c.data, c.kind, c.id, c.received, false), field, value);
  }

  lemma FieldOf(field: string, value: string)
    requires ':' !in field
    ensures var line := field + ": " + value; line[..IndexOf(line, ':')] == field && Value(line) == value
  {
    var line := field + ": " + value;
    IndexOfFirst(field, ':', " " + value);
    assert line == field + [':'] + (" " + value);
    assert line[|field| + 1..] == " " + value;
    assert (" " + value)[1..] == value;
  }

  lemma EndField(c: Client, line: string)
    requires line != "" && line[0] != ':'
    ensures EndLine(c, line) == Process(c, line[..IndexOf(line, ':')], Value(line))
  {
  }

  lemma ProcessClears(c: Client, d: Client, field: string, value: string)
    requires d == Client(d.line, c.data, c.kind, c.id, c.received, false)
    ensures Process(c, field, value) == Process(d, field, value)
  {
  }

  lemma {:induction false} IndexOfFirst(s: string, c: char, t: string)
    requires c !in s
    ensures IndexOf(s + [c] + t, c) == |s|
  {
    if s != "" {
      assert (s + [c] + t)[1..] == s[1..] + [c] + t;
      IndexOfFirst(s[1..], c, t);
    }
  }

  lemma IdLine(c: Client, id: string)
    requires c.line == "" && !c.afterReturn && OnOneLine(id) && '\0' !in id
    ensures Feed(c, "id" + ": " + id + "\n") == Client("", c.data, c.kind, id, c.received, false)
  {
    FieldLine(c, "id", id);
  }

  lemma EventLine(c: Client, kind: string)
    requires c.line == "" && !c.afterReturn && OnOneLine(kind)
    ensures Feed(c, "event" + ": " + kind + "\n") == Client("", c.data, kind, c.id, c.received, false)
  {
    FieldLine(c, "event", kind);
  }

  lemma DataLine(c: Client, data: string)
    requires c.line == "" && !c.afterReturn && OnOneLine(data)
    ensures Feed(c, "data" + ": " + data + "\n") == Client("", c.data + data + "\n", c.kind, c.id, c.received, false)
  {
    FieldLine(c, "data", data);
  }

  lemma BlankLine(c: Client)
    requires c.line == "" && !c.afterReturn
    ensures Feed(c, "" + "\n") == Dispatch(c)
  {
    FeedLine(c, "");
  }

  // Between two events: nothing is buffered but the last id.
  predicate Idle(c: Client) {
    c.line == "" && c.data == "" && c.kind == "" && !c.afterReturn
  }

  // A keepalive comment leaves no trace.
  lemma {:induction false} CommentIsIgnored(c: Client)
    requires Idle(c)
    ensures Feed(c, COMMENT) == c
  {
    assert COMMENT == (": keepalive" + "\n") + ("" + "\n");
    FeedConcat(c, ": keepalive" + "\n", "" + "\n");
    assert OnOneLine(": keepalive");
    FeedLine(c, ": keepalive");
    FeedLine(c, "");
  }

  function MessageOf(encode: R.Payload -> string, e: C.Event): Message {
    Message(TypeName(e.kind), encode(e.payload), Decimal(e.id))
  }

  // A rendered event arrives as it was sent, with its id.
  lemma {:induction false} EventArrives(encode: R.Payload -> string, c: Client, e: C.Event)
    requires Idle(c) && OneLine(encode)
    ensures Feed(c, Render(encode, e))
            == Client("", "", "", Decimal(e.id), c.received + [MessageOf(encode, e)], false)
  {
    RenderInLines(encode, e);
    DecimalIsDigits(e.id);
    FieldsArrive(c, Decimal(e.id), TypeName(e.kind), encode(e.payload));
  }

  lemma FieldsArrive(c: Client, id: string, kind: string, data: string)
    requires Idle(c) && OnOneLine(id) && '\0' !in id && OnOneLine(kind) && kind != "" && OnOneLine(data)
    ensures Feed(c, ("id" + ": " + id + "\n") + ("event" + ": " + kind + "\n") + ("data" + ": " + data + "\n")
                    + ("" + "\n"))
            == Client("", "", "", id, c.received + [Message(kind, data, id)], false)
  {
    FeedFour(c, "id" + ": " + id + "\n", "event" + ": " + kind + "\n", "data" + ": " + data + "\n", "" + "\n");
    IdLine(c, id);
    EventLine(Client("", "", "", id, c.received, false), kind);
    DataLine(Client("", "", kind, id, c.received, false), data);
    BlankLine(Client("", "" + data + "\n", kind, id, c.received, false));
    DispatchFull(Client("", "" + data + "\n", kind, id, c.received, false), data);
  }

  lemma FeedFour(c: Client, s: string, t: string, u: string, v: string)
    ensures Feed(c, s + t + u + v) == Feed(Feed(Feed(Feed(c, s), t), u), v)
  {
    FeedConcat(c, s + t + u, v);
    FeedConcat(c, s + t, u);
    FeedConcat(c, s, t);
  }

  lemma DispatchFull(c: Client, data: string)
    requires c.data == "" + data + "\n" && c.kind != ""
    ensures Dispatch(c) == Client("", "", "", c.id, c.received + [Message(c.kind, data, c.id)], false)
  {
    assert c.data == data + "\n" && c.data[..|c.data| - 1] == data;
  }

  lemma RenderInLines(encode: R.Payload -> string, e: C.Event)
    ensures Render(encode, e) == ("id" + ": " + Decimal(e.id) + "\n") + ("event" + ": " + TypeName(e.kind) + "\n")
                                 + ("data" + ": " + encode(e.payload) + "\n") + ("" + "\n")
  {
    var id, kind, data := Decimal(e.id), TypeName(e.kind), encode(e.payload);
    assert "id" + ": " == "id: " && "event" + ": " == "event: " && "data" + ": " == "data: ";
    Regroup("id: " + id + "\n", "event: ", kind, "\n", "data: ", data);
  }

  lemma Regroup(a: string, b: string, c: string, d: string, f: string, g: string)
    ensures a + b + c + d + f + g + "\n\n" == a + (b + c + d) + (f + g + "\n") + ("" + "\n")
  {
    assert "\n\n" == "\n" + ("" + "\n");
  }

  // ---- The main result ----

  function Joined(chunks: seq<string>): string {
    if chunks == [] then "" else chunks[0] + Joined(chunks[1..])
  }

  function Messages(encode: R.Payload -> string, events: seq<C.Event>): seq<Message> {
    if events == [] then [] else [MessageOf(encode, events[0])] + Messages(encode, events[1..])
  }

  function LastId(id: string, events: seq<C.Event>): string {
    if events == [] then id else Decimal(events[|events| - 1].id)
  }

  function Renderer(encode: R.Payload -> string): C.Event -> string {
    e => Render(encode, e)
  }

  // Whatever the pattern of silences, the client receives the delivered events in order, unchanged
  // and with their ids, and would reconnect with the id of the last one.
  lemma {:induction false} ClientReceivesTheEvents(encode: R.Payload -> string, c: Client, events: seq<C.Event>,
                                                   turns: seq<Turn>)
    requires Idle(c) && OneLine(encode)
    ensures var delivered := Delivered(events, turns);
            Feed(c, Joined(Sent(Renderer(encode), COMMENT, events, turns)))
            == Client("", "", "", LastId(c.id, delivered), c.received + Messages(encode, delivered), false)
    decreases |turns|
  {
    var sent := Sent(Renderer(encode), COMMENT, events, turns);
    if turns == [] || turns[0].Fails? || turns[0].Cancelled? || (turns[0].Arrival? && events == []) {
      assert sent == [] && Delivered(events, turns) == [];
      assert c.received + [] == c.received;
    } else if turns[0].Silence? {
      var rest := if turns[0].closes then [] else Sent(Renderer(encode), COMMENT, events, turns[1..]);
      assert sent == [COMMENT] + rest;
      JoinedFirst(COMMENT, rest);
      FeedConcat(c, COMMENT, Joined(rest));
      CommentIsIgnored(c);
      if turns[0].closes {
        assert c.received + [] == c.received;
      } else {
        ClientReceivesTheEvents(encode, c, events, turns[1..]);
      }
    } else {
      var rest := if turns[0].closes then [] else Sent(Renderer(encode), COMMENT, events[1..], turns[1..]);
      var chunk := Render(encode, events[0]);
      assert sent == [chunk] + rest;
      JoinedFirst(chunk, rest);
      FeedConcat(c, chunk, Joined(rest));
      EventArrives(encode, c, events[0]);
      DeliveredOneMore(events, turns);
      var later := if turns[0].closes then [] else Delivered(events[1..], turns[1..]);
      if !turns[0].closes {
        ClientReceivesTheEvents(encode, Feed(c, chunk), events[1..], turns[1..]);
      }
      OneMoreMessage(encode, c, events[0], later);
    }
  }

  // The id the client would send as Last-Event-ID is that of the last event it received.
  lemma {:induction false} LastEventIdIsTheLastEvents(encode: R.Payload -> string, events: seq<C.Event>, turns: seq<Turn>)
    requires OneLine(encode) && Delivered(events, turns) != []
    ensures var delivered := Delivered(events, turns);
            Read(Feed(START, Joined(Sent(Renderer(encode), COMMENT, events, turns))).id)
            == delivered[|delivered| - 1].id
  {
    var delivered := Delivered(events, turns);
    ClientReceivesTheEvents(encode, START, events, turns);
    ReadDecimal(delivered[|delivered| - 1].id);
  }

  lemma JoinedFirst(chunk: string, rest: seq<string>)
    ensures Joined([chunk] + rest) == chunk + Joined(rest)
  {
    assert ([chunk] + rest)[1..] == rest;
  }

  lemma OneMoreMessage(encode: R.Payload -> string, c: Client, e: C.Event, later: seq<C.Event>)
    ensures LastId(c.id, [e] + later) == LastId(Decimal(e.id), later)
    ensures c.received + Messages(encode, [e] + later)
            == c.received + [MessageOf(encode, e)] + Messages(encode, later)
  {
    assert ([e] + later)[1..] == later;
  }
}
