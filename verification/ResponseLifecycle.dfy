/** The life of one HTTP response: the recorder that the request log reads, panic recovery below it,
    and the archive download whose headers wait for its first byte.

    A handler is any finite sequence of writer calls that ends in a return or a panic.  How many bytes
    of a write the peer accepts, and whether a reader panics while it is copied, are chosen by the
    environment.  `Connection` is the contract of Go's net/http server writer: the first final status
    wins and freezes the headers, informational statuses commit nothing, a status outside 100..999
    panics, and a response nobody started is finished as an empty 200. */
module ResponseLifecycle {

  import opened Wrappers
  import JsonText

  type Headers = map<string, string>

  /* ---------------------------------------------------------------- the connection */

  datatype Net = Net(header: Headers, committed: bool, status: int, sent: Headers, body: string)

  function FreshNet(header: Headers): Net { Net(header, false, 0, map[], "") }

  /** Statuses after which a response is decided; 101 is final although it is numbered 1xx. */
  predicate Final(status: int) { status == 101 || 200 <= status <= 999 }

  predicate Informational(status: int) { 100 <= status <= 199 && status != 101 }

  predicate BodyAllowed(status: int) { !(100 <= status <= 199) && status != 204 && status != 304 }

  lemma BodilessAre(status: int)
    ensures !BodyAllowed(status) <==> status == 204 || status == 304 || 100 <= status < 200
  {
  }

  function Commit(n: Net, status: int): Net { n.(committed := true, status := status, sent := n.header) }

  predicate HeaderPanics(n: Net, status: int) { !n.committed && !Final(status) && !Informational(status) }

  function NetWriteHeader(n: Net, status: int): Net {
    if n.committed || !Final(status) then n else Commit(n, status)
  }

  /** The bytes of data that reach the client when the peer takes at most take of them. */
  function Delivered(status: int, data: string, take: nat): string {
    if BodyAllowed(status) then data[..if take <= |data| then take else |data|] else ""
  }

  function NetWrite(n: Net, data: string, take: nat): Net {
    var m := if n.committed then n else Commit(n, 200);
    m.(body := m.body + Delivered(m.status, data, take))
  }

  /** Copying from a reader writes only when the reader produced something. */
  function NetReadFrom(n: Net, data: string, take: nat): Net {
    if data == "" then n else NetWrite(n, data, take)
  }

  /** What the server does after the handler chain returned. */
  function NetFinish(n: Net): Net { if n.committed then n else Commit(n, 200) }

  /* ---------------------------------------------------------------- the recorder, as values */

  datatype Rec = Rec(status: int, bytes: int, wroteHeader: bool)

  datatype Stack = Stack(net: Net, rec: Rec)

  function Fresh(header: Headers): Stack { Stack(FreshNet(header), Rec(200, 0, false)) }

  function SetHeaders(s: Stack, more: Headers): Stack { s.(net := s.net.(header := s.net.header + more)) }

  function RecWriteHeader(s: Stack, status: int): Stack {
    Stack(NetWriteHeader(s.net, status), if s.rec.wroteHeader then s.rec else s.rec.(status := status, wroteHeader := true))
  }

  function Started(s: Stack): Stack { if s.rec.wroteHeader then s else RecWriteHeader(s, 200) }

  function RecWrite(s: Stack, data: string, take: nat): Stack {
    var t := Started(s);
    var net := NetWrite(t.net, data, take);
    Stack(net, t.rec.(bytes := t.rec.bytes + |net.body| - |t.net.body|))
  }

  /** A panic in the reader skips the line that adds the copied bytes. */
  function RecReadFrom(s: Stack, data: string, take: nat, panics: bool): Stack {
    var t := Started(s);
    var net := NetReadFrom(t.net, data, take);
    Stack(net, if panics then t.rec else t.rec.(bytes := t.rec.bytes + |net.body| - |t.net.body|))
  }

  /* ---------------------------------------------------------------- handler runs */

  datatype Call =
    | SetHeader(key: string, value: string)
    | WriteHeader(status: int)
    | Write(data: string, take: nat)
    | ReadFrom(data: string, take: nat, panics: bool)

  datatype Ran = Ran(state: Stack, panicked: bool)

  function Perform(s: Stack, call: Call): Ran {
    match call
    case SetHeader(key, value) => Ran(SetHeaders(s, map[key := value]), false)
    case WriteHeader(status) => Ran(RecWriteHeader(s, status), HeaderPanics(s.net, status))
    case Write(data, take) => Ran(RecWrite(s, data, take), false)
    case ReadFrom(data, take, panics) => Ran(RecReadFrom(s, data, take, panics), panics)
  }

  /** The calls in order until one panics; panics says how the handler itself ends. */
  function Handle(s: Stack, calls: seq<Call>, panics: bool): Ran
    decreases |calls|
  {
    if calls == [] then Ran(s, panics)
    else
      var r := Perform(s, calls[0]);
      if r.panicked then r else Handle(r.state, calls[1..], panics)
  }

  const JSON: Headers := map["Content-Type" := "application/json"]

  function Envelope(code: string, message: string): string {
    "{\"error\":{\"code\":\"" + (JsonText.Escape(code) + "\"" + (",\"message\":\"" + (JsonText.Escape(message) + "\"" + "}}\n")))
  }

  function After(s: string, prefix: string): Option<string> {
    if prefix <= s then Some(s[|prefix|..]) else None
  }

  /** The code and the message a client reads out of an error response. */
  function ReadEnvelope(text: string): Option<(string, string)> {
    match After(text, "{\"error\":{\"code\":\"")
    case None => None
    case Some(s) =>
      match JsonText.ReadString(s)
      case None => None
      case Some((code, t)) =>
        match After(t, ",\"message\":\"")
        case None => None
        case Some(u) =>
          match JsonText.ReadString(u)
          case Some((message, end)) => if end == "}}\n" then Some((code, message)) else None
          case None => None
  }

  lemma AfterPrefix(prefix: string, rest: string)
    ensures After(prefix + rest, prefix) == Some(rest)
  {
    assert (prefix + rest)[|prefix|..] == rest;
  }

  /** An envelope holds its code and its message, each in its own field, whatever characters they contain. */
  lemma EnvelopeReadsBack(code: string, message: string)
    ensures ReadEnvelope(Envelope(code, message)) == Some((code, message))
  {
    var u := JsonText.Escape(message) + "\"" + "}}\n";
    var t := ",\"message\":\"" + u;
    AfterPrefix("{\"error\":{\"code\":\"", JsonText.Escape(code) + "\"" + t);
    JsonText.StringRoundTrip(code, t);
    AfterPrefix(",\"message\":\"", u);
    JsonText.StringRoundTrip(message, "}}\n");
  }

  /** An error as the service reports it. */
  datatype Fault = Fault(status: int, code: string, message: string)

  const INTERNAL: Fault := Fault(500, "INTERNAL_ERROR", "internal server error")

  const BUSY: Fault := Fault(503, "RESOURCE_BUSY", "database is busy; retry the request")

  function WriteApiError(s: Stack, e: Fault, take: nat): Stack {
    RecWrite(RecWriteHeader(SetHeaders(s, JSON), e.status), Envelope(e.code, e.message), take)
  }

  const PLAIN: Headers := map["Content-Type" := "text/plain; charset=utf-8", "X-Content-Type-Options" := "nosniff"]

  /** The generated 500: an envelope below /api/, plain text elsewhere. */
  function InternalServerError(s: Stack, api: bool, take: nat): Stack {
    if api then WriteApiError(s, INTERNAL, take)
    else
      var t := s.(net := s.net.(header := s.net.header - {"Content-Length"} + PLAIN));
      RecWrite(RecWriteHeader(t, 500), "Internal Server Error\n", take)
  }

  /** withRecovery: a panic becomes a 500 unless a response was already started. */
  function Recovered(r: Ran, api: bool, take: nat): Stack {
    if r.panicked && !r.state.rec.wroteHeader then InternalServerError(r.state, api, take) else r.state
  }

  /** One request: the handler under recovery under the recorder.  The log reads the recorder; the client
      gets the finished connection. */
  function Request(header: Headers, calls: seq<Call>, panics: bool, api: bool, take: nat): Stack {
    var s := Recovered(Handle(Fresh(header), calls, panics), api, take);
    s.(net := NetFinish(s.net))
  }

  /* ---------------------------------------------------------------- when the log tells the truth */

  /** The status the first call that touches the response decides; 200 when nothing does. */
  function Decides(calls: seq<Call>): int {
    if calls == [] then 200
    else match calls[0]
      case SetHeader(_, _) => Decides(calls[1..])
      case WriteHeader(status) => status
      case _ => 200
  }

  /** A copy is cut short by its reader's panic after some of it was sent under the given status. */
  predicate CutShort(calls: seq<Call>, status: int) {
    if calls == [] then false
    else if calls[0].ReadFrom? && calls[0].panics then Delivered(status, calls[0].data, calls[0].take) != ""
    else CutShort(calls[1..], status)
  }

  /** What a caller can check before the run. */
  predicate Loggable(calls: seq<Call>) {
    Final(Decides(calls)) && !CutShort(calls, Decides(calls))
  }

  /** Recorder and connection agree. */
  predicate Synced(s: Stack) {
    && s.rec.wroteHeader == s.net.committed
    && s.rec.bytes == |s.net.body|
    && (if s.net.committed then s.rec.status == s.net.status && Final(s.net.status)
        else s.rec.status == 200 && s.net.body == "")
  }

  /** The recorder took a status for final that the connection did not. */
  predicate Skewed(s: Stack) {
    && s.rec.wroteHeader && !Final(s.rec.status)
    && (s.net.committed ==> Final(s.net.status))
  }

  lemma {:induction false} SkewedForever(s: Stack, calls: seq<Call>, panics: bool)
    requires Skewed(s)
    ensures Skewed(Handle(s, calls, panics).state)
    decreases |calls|
  {
    if calls != [] && !Perform(s, calls[0]).panicked {
      SkewedForever(Perform(s, calls[0]).state, calls[1..], panics);
    }
  }

  /** Once started in agreement, a run stays in agreement except for the bytes of a copy cut short. */
  lemma {:induction false} StartedStaysSynced(s: Stack, calls: seq<Call>, panics: bool)
    requires Synced(s) && s.net.committed
    ensures var r := Handle(s, calls, panics).state;
            && r.net.committed && r.net.status == s.net.status && r.rec.wroteHeader && r.rec.status == s.net.status
            && (r.rec.bytes == |r.net.body| <==> !CutShort(calls, s.net.status))
    decreases |calls|
  {
    if calls != [] && !Perform(s, calls[0]).panicked {
      StartedStaysSynced(Perform(s, calls[0]).state, calls[1..], panics);
    }
  }

  lemma {:induction false} RunFromFresh(s: Stack, calls: seq<Call>, panics: bool)
    requires Synced(s) && !s.net.committed
    ensures var r := Handle(s, calls, panics);
            if !Final(Decides(calls)) then Skewed(r.state)
            else if !r.state.rec.wroteHeader then Synced(r.state) && !CutShort(calls, Decides(calls))
            else && r.state.net.committed && r.state.net.status == r.state.rec.status == Decides(calls)
                 && (r.state.rec.bytes == |r.state.net.body| <==> !CutShort(calls, Decides(calls)))
    decreases |calls|
  {
    if calls != [] {
      var r := Perform(s, calls[0]);
      match calls[0]
      case SetHeader(_, _) =>
        RunFromFresh(r.state, calls[1..], panics);
      case WriteHeader(status) =>
        if Final(status) {
          StartedStaysSynced(r.state, calls[1..], panics);
        } else if !r.panicked {
          SkewedForever(r.state, calls[1..], panics);
        }
      case Write(_, _) =>
        StartedStaysSynced(r.state, calls[1..], panics);
      case ReadFrom(_, _, true) =>
      case ReadFrom(_, _, false) =>
        StartedStaysSynced(r.state, calls[1..], panics);
    }
  }

  lemma ErrorPageStaysSynced(s: Stack, api: bool, take: nat)
    requires Synced(s) && !s.net.committed
    ensures Synced(InternalServerError(s, api, take)) && InternalServerError(s, api, take).net.status == 500
  {
  }

  /** The request log reports exactly the status and byte count the client received, if and only if the
      first status the handler set was final and no reader panicked after part of its copy was sent. */
  lemma LogIsTruthful(header: Headers, calls: seq<Call>, panics: bool, api: bool, take: nat)
    ensures var end := Request(header, calls, panics, api, take);
            end.rec.status == end.net.status && end.rec.bytes == |end.net.body| <==> Loggable(calls)
  {
    RunFromFresh(Fresh(header), calls, panics);
    var r := Handle(Fresh(header), calls, panics);
    if Final(Decides(calls)) && !r.state.rec.wroteHeader && r.panicked {
      ErrorPageStaysSynced(r.state, api, take);
    }
  }

  /** The promise without the condition is false: an informational status is logged although the client
      got 200, and a status net/http refuses turns the panic into an empty 200 that is logged as that status. */
  lemma LogCanBeWrong()
    ensures var end := Request(map[], [WriteHeader(103), Write("x", 1)], false, true, 9);
            end.rec.status == 103 && end.net.status == 200
    ensures var end := Request(map[], [WriteHeader(1000)], false, true, 9);
            end.rec.status == 1000 && end.net.status == 200 && end.net.body == ""
    ensures var end := Request(map[], [ReadFrom("abc", 3, true)], false, true, 9);
            end.rec.bytes == 0 && end.net.body == "abc"
  {
    var a := Perform(Fresh(map[]), WriteHeader(103)).state;
    var first := [WriteHeader(103), Write("x", 1)];
    assert first[1..] == [Write("x", 1)];
    assert Handle(a, [Write("x", 1)], false) == Handle(Perform(a, Write("x", 1)).state, [], false) by {
      assert [Write("x", 1)][1..] == [];
    }
    assert Handle(Fresh(map[]), first, false) == Handle(a, [Write("x", 1)], false);
    assert Handle(Fresh(map[]), [WriteHeader(1000)], false).panicked;
    assert Handle(Fresh(map[]), [ReadFrom("abc", 3, true)], false).panicked;
  }

  predicate OnlyHeaders(calls: seq<Call>) { forall i :: 0 <= i < |calls| ==> calls[i].SetHeader? }

  lemma {:induction false} WrittenIffCalled(s: Stack, calls: seq<Call>, panics: bool)
    requires !s.rec.wroteHeader
    ensures Handle(s, calls, panics).state.rec.wroteHeader <==> !OnlyHeaders(calls)
    ensures OnlyHeaders(calls) ==> Handle(s, calls, panics).panicked == panics
    decreases |calls|
  {
    if calls != [] {
      var r := Perform(s, calls[0]);
      if calls[0].SetHeader? {
        WrittenIffCalled(r.state, calls[1..], panics);
      } else if !r.panicked {
        StaysWritten(r.state, calls[1..], panics);
      }
    }
  }

  lemma {:induction false} StaysWritten(s: Stack, calls: seq<Call>, panics: bool)
    requires s.rec.wroteHeader
    ensures Handle(s, calls, panics).state.rec.wroteHeader
    decreases |calls|
  {
    if calls != [] && !Perform(s, calls[0]).panicked {
      StaysWritten(Perform(s, calls[0]).state, calls[1..], panics);
    }
  }

  lemma {:induction false} OnlyHeadersDecidesNothing(calls: seq<Call>)
    requires OnlyHeaders(calls)
    ensures Decides(calls) == 200
  {
    if calls != [] {
      OnlyHeadersDecidesNothing(calls[1..]);
    }
  }

  /* ---------------------------------------------------------------- what the client gets */

  /** A call that starts the response: the first final status, the first write, or a copy that has something to send
      or finds no status recorded. */
  predicate Starts(call: Call, recorded: bool) {
    match call
    case SetHeader(_, _) => false
    case WriteHeader(status) => status == 101 || 200 <= status <= 999
    case Write(_, _) => true
    case ReadFrom(data, _, _) => data != "" || !recorded
  }

  /** A call that ends the handler: a reader that panics, or, before the response has started, a status that is none. */
  predicate Ends(call: Call, started: bool) {
    (call.ReadFrom? && call.panics) || (call.WriteHeader? && !started && (call.status < 100 || call.status > 999))
  }

  /** The status of the response: that of the call that starts it. */
  function ClientStatus(calls: seq<Call>, recorded: bool): int {
    if calls == [] then 200
    else if Starts(calls[0], recorded) then (if calls[0].WriteHeader? then calls[0].status else 200)
    else if Ends(calls[0], false) then 200
    else ClientStatus(calls[1..], recorded || !calls[0].SetHeader?)
  }

  /** Its headers: those set before it starts. */
  function ClientHeaders(header: Headers, calls: seq<Call>, recorded: bool): Headers
    decreases |calls|
  {
    if calls == [] || Starts(calls[0], recorded) || Ends(calls[0], false) then header
    else ClientHeaders(if calls[0].SetHeader? then header[calls[0].key := calls[0].value] else header, calls[1..], recorded || !calls[0].SetHeader?)
  }

  /** What one call sends: as much of its data as the peer takes. */
  function Piece(call: Call, status: int): string {
    match call
    case Write(data, take) => Delivered(status, data, take)
    case ReadFrom(data, take, _) => Delivered(status, data, take)
    case _ => ""
  }

  /** Its body: what every call sends, in order, until one ends the handler. */
  function ClientBody(calls: seq<Call>, recorded: bool, started: bool, status: int): string
    decreases |calls|
  {
    if calls == [] then ""
    else Piece(calls[0], status)
         + if Ends(calls[0], started) then ""
           else ClientBody(calls[1..], recorded || !calls[0].SetHeader?, started || Starts(calls[0], recorded), status)
  }

  lemma {:induction false} StartedBody(s: Stack, calls: seq<Call>, recorded: bool, panics: bool)
    requires s.net.committed && s.rec.wroteHeader
    ensures var n := Handle(s, calls, panics).state.net;
            && n.committed && n.status == s.net.status && n.sent == s.net.sent
            && n.body == s.net.body + ClientBody(calls, recorded, true, s.net.status)
    decreases |calls|
  {
    if calls != [] {
      var r, later := Perform(s, calls[0]), recorded || !calls[0].SetHeader?;
      OneMore(s, calls[0]);
      if !r.panicked {
        StartedBody(r.state, calls[1..], later, panics);
        Joined(s.net.body, Piece(calls[0], s.net.status), ClientBody(calls[1..], later, true, s.net.status));
      }
    }
  }

  lemma Joined(a: string, b: string, c: string)
    ensures a + b + c == a + (b + c)
  {
  }

  lemma OneMore(s: Stack, call: Call)
    requires s.net.committed && s.rec.wroteHeader
    ensures var r := Perform(s, call);
            && r.state.net.committed && r.state.rec.wroteHeader && r.state.net.status == s.net.status && r.state.net.sent == s.net.sent
            && r.state.net.body == s.net.body + Piece(call, s.net.status) && r.panicked == Ends(call, true)
  {
  }

  /** A call that starts the response. */
  lemma FirstPiece(s: Stack, call: Call)
    requires !s.net.committed && s.net.body == "" && Starts(call, s.rec.wroteHeader)
    ensures var n, status := Perform(s, call), if call.WriteHeader? then call.status else 200;
            && n.state.net.committed && n.state.rec.wroteHeader && n.state.net.status == status && n.state.net.sent == s.net.header
            && n.state.net.body == Piece(call, status) && n.panicked == Ends(call, false)
  {
  }

  /** And one that does not. */
  lemma NoPiece(s: Stack, call: Call)
    requires !s.net.committed && s.net.body == "" && !Starts(call, s.rec.wroteHeader)
    ensures var n := Perform(s, call);
            && !n.state.net.committed && n.state.net.body == "" && n.panicked == Ends(call, false)
            && n.state.rec.wroteHeader == (s.rec.wroteHeader || !call.SetHeader?)
            && n.state.net.header == (if call.SetHeader? then s.net.header[call.key := call.value] else s.net.header)
            && Piece(call, 200) == "" && (call.Write? || call.ReadFrom? ==> call.data == "")
  {
  }

  lemma {:induction false} BodyFromStart(s: Stack, calls: seq<Call>, panics: bool)
    requires !s.net.committed && s.net.body == ""
    ensures var n, recorded := NetFinish(Handle(s, calls, panics).state.net), s.rec.wroteHeader;
            var status := ClientStatus(calls, recorded);
            n.status == status && n.sent == ClientHeaders(s.net.header, calls, recorded) && n.body == ClientBody(calls, recorded, false, status)
    decreases |calls|
  {
    if calls != [] {
      var r := Perform(s, calls[0]);
      if Starts(calls[0], s.rec.wroteHeader) {
        FirstPiece(s, calls[0]);
        if !r.panicked {
          StartedBody(r.state, calls[1..], s.rec.wroteHeader || !calls[0].SetHeader?, panics);
        }
      } else {
        NoPiece(s, calls[0]);
        if !r.panicked {
          BodyFromStart(r.state, calls[1..], panics);
        }
      }
    }
  }

  /** The headers a handler that sets nothing else has set. */
  function AllHeaders(header: Headers, calls: seq<Call>): Headers
    requires OnlyHeaders(calls)
    decreases |calls|
  {
    if calls == [] then header else AllHeaders(header[calls[0].key := calls[0].value], calls[1..])
  }

  lemma {:induction false} HeadersCollected(s: Stack, calls: seq<Call>, panics: bool)
    requires OnlyHeaders(calls) && !s.net.committed && s.net.body == ""
    ensures var n := Handle(s, calls, panics).state.net; !n.committed && n.body == "" && n.header == AllHeaders(s.net.header, calls)
    ensures Handle(s, calls, panics).state.rec == s.rec
    decreases |calls|
  {
    if calls != [] {
      NoPiece(s, calls[0]);
      HeadersCollected(Perform(s, calls[0]).state, calls[1..], panics);
    }
  }

  /** A response that is one JSON error and nothing else: no download header, no archive byte, and the envelope as far as
      the peer takes it. */
  predicate IsError(net: Net, header: Headers, e: Fault, take: nat) {
    && net.status == e.status && net.sent == header["Content-Type" := "application/json"]
    && net.body == Delivered(e.status, Envelope(e.code, e.message), take)
  }

  lemma ErrorIsWhole(s: Stack, e: Fault, take: nat)
    requires !s.net.committed && s.net.body == "" && !s.rec.wroteHeader && s.rec.bytes == 0 && Final(e.status)
    ensures var t := WriteApiError(s, e, take);
            Synced(t) && t.net.committed && IsError(t.net, s.net.header, e, take)
  {
  }

  /** The generated 500, whole: an envelope below /api/ and plain text elsewhere, of which the client gets as much as the
      peer takes. */
  predicate IsInternalError(net: Net, header: Headers, api: bool, take: nat) {
    && net.status == 500
    && (if api
        then IsError(net, header, INTERNAL, take)
        else && net.body == Delivered(500, "Internal Server Error\n", take)
             && net.sent == (header - {"Content-Length"})["Content-Type" := "text/plain; charset=utf-8"]["X-Content-Type-Options" := "nosniff"])
  }

  lemma InternalErrorIsWhole(s: Stack, api: bool, take: nat)
    requires !s.net.committed && s.net.body == "" && !s.rec.wroteHeader && s.rec.bytes == 0
    ensures IsInternalError(InternalServerError(s, api, take).net, s.net.header, api, take) && InternalServerError(s, api, take).net.committed
  {
    if api {
      ErrorIsWhole(s, INTERNAL, take);
    }
  }

  /** What a request comes to for the client, told from the handler's calls. */
  predicate ClientGets(net: Net, header: Headers, calls: seq<Call>, panics: bool, api: bool, take: nat) {
    if panics && OnlyHeaders(calls) then IsInternalError(net, AllHeaders(header, calls), api, take)
    else
      var status := ClientStatus(calls, false);
      net.status == status && net.sent == ClientHeaders(header, calls, false) && net.body == ClientBody(calls, false, false, status)
  }

  /** The generated 500 replaces the response if and only if the handler panicked before touching it; it is
      then the whole response, an envelope below /api/.  A started response is never overwritten: the client gets the
      first status, the headers set before it, and what each write sent, in order. */
  lemma RecoveryNeverMixes(header: Headers, calls: seq<Call>, panics: bool, api: bool, take: nat)
    ensures ClientGets(Request(header, calls, panics, api, take).net, header, calls, panics, api, take)
  {
    WrittenIffCalled(Fresh(header), calls, panics);
    if panics && OnlyHeaders(calls) {
      HeadersCollected(Fresh(header), calls, panics);
      InternalErrorIsWhole(Handle(Fresh(header), calls, panics).state, api, take);
    } else {
      BodyFromStart(Fresh(header), calls, panics);
    }
  }

  /* ---------------------------------------------------------------- the archive download */

  datatype Chunk = Chunk(data: string, take: nat)

  /** How the export service ends: the archive is complete, it failed (busy or otherwise), or it panicked. */
  datatype Outcome = Complete | Failed(busy: bool) | Panicked

  /** The checks before the archive: signed in, filter well formed, filter valid. */
  datatype Gate = Admitted | Refused(fault: Fault)

  function ArchiveHeaders(filename: string): Headers {
    map["Content-Type" := "application/zip",
        "Content-Disposition" := "attachment; filename=\"" + filename + "\"",
        "Cache-Control" := "no-store"]
  }

  /** deferredHeaderWriter: the headers are attached by the first write and by no other. */
  datatype Deferred = Deferred(stack: Stack, started: bool, attached: nat)

  function DeferredWrite(d: Deferred, filename: string, chunk: Chunk): Deferred {
    var stack := if d.started then d.stack else SetHeaders(d.stack, ArchiveHeaders(filename));
    Deferred(RecWrite(stack, chunk.data, chunk.take), true, if d.started then d.attached else d.attached + 1)
  }

  function DeferredWrites(d: Deferred, filename: string, chunks: seq<Chunk>): Deferred {
    if chunks == [] then d
    else DeferredWrite(DeferredWrites(d, filename, chunks[..|chunks| - 1]), filename, chunks[|chunks| - 1])
  }

  function ServiceError(s: Stack, busy: bool, take: nat): Stack {
    WriteApiError(s, if busy then BUSY else INTERNAL, take)
  }

  /** exportBundle under recovery, for a path below /api/. */
  function Export(header: Headers, gate: Gate, filename: string, chunks: seq<Chunk>, outcome: Outcome, take: nat): Deferred {
    var d := Deferred(Fresh(header), false, 0);
    if gate.Refused? then d.(stack := WriteApiError(d.stack, gate.fault, take))
    else
      var e := DeferredWrites(d, filename, chunks);
      match outcome
      case Complete => e
      case Failed(busy) => if e.started then e else e.(stack := ServiceError(e.stack, busy, take))
      case Panicked => e.(stack := Recovered(Ran(e.stack, true), true, take))
  }

  /** The bytes of an archive that the client received, in order. */
  function Received(chunks: seq<Chunk>): string {
    if chunks == [] then ""
    else Received(chunks[..|chunks| - 1]) + Delivered(200, chunks[|chunks| - 1].data, chunks[|chunks| - 1].take)
  }

  lemma {:induction false} ArchiveWrites(header: Headers, filename: string, chunks: seq<Chunk>)
    requires chunks != []
    ensures var e := DeferredWrites(Deferred(Fresh(header), false, 0), filename, chunks);
            && e.started && e.attached == 1 && Synced(e.stack) && e.stack.net.committed && e.stack.net.status == 200
            && e.stack.net.sent == header + ArchiveHeaders(filename) && e.stack.net.body == Received(chunks)
    decreases |chunks|
  {
    var d := Deferred(Fresh(header), false, 0);
    var before := chunks[..|chunks| - 1];
    if before == [] {
      assert DeferredWrites(d, filename, before) == d;
    } else {
      ArchiveWrites(header, filename, before);
    }
  }

  /** A response that is the archive and nothing else: its headers, and the accepted bytes in order. */
  predicate IsArchive(net: Net, header: Headers, filename: string, chunks: seq<Chunk>) {
    && net.status == 200 && net.body == Received(chunks)
    && net.sent == header["Content-Type" := "application/zip"]
                         ["Content-Disposition" := "attachment; filename=\"" + filename + "\""]["Cache-Control" := "no-store"]
  }

  /** The error each way of not producing an archive is reported with. */
  function FaultFor(gate: Gate, outcome: Outcome): Fault {
    if gate.Refused? then gate.fault else if outcome == Failed(true) then BUSY else INTERNAL
  }

  lemma FaultsAreNamed()
    ensures INTERNAL.status == 500 && INTERNAL.code == "INTERNAL_ERROR" && INTERNAL.message == "internal server error"
    ensures BUSY.status == 503 && BUSY.code == "RESOURCE_BUSY" && BUSY.message == "database is busy; retry the request"
  {
  }

  /** A client whose connection takes all of an error reads its code and its message, and no header promises a file. */
  lemma ErrorIsReadable(net: Net, header: Headers, e: Fault, take: nat)
    requires IsError(net, header, e, take) && BodyAllowed(e.status) && take >= |Envelope(e.code, e.message)|
    ensures ReadEnvelope(net.body) == Some((e.code, e.message))
    ensures "Content-Disposition" !in header ==> "Content-Disposition" !in net.sent
  {
    EnvelopeReadsBack(e.code, e.message);
    assert net.body == Envelope(e.code, e.message);
  }

  lemma ArchiveHeadersLaid(header: Headers, filename: string)
    ensures header + ArchiveHeaders(filename)
         == header["Content-Type" := "application/zip"]["Content-Disposition" := "attachment; filename=\"" + filename + "\""]["Cache-Control" := "no-store"]
  {
  }

  lemma SomethingWritten(header: Headers, filename: string, chunks: seq<Chunk>, outcome: Outcome, take: nat)
    requires chunks != []
    ensures var e := Export(header, Admitted, filename, chunks, outcome, take);
            e.attached == 1 && e.stack.net.committed && Synced(e.stack) && IsArchive(e.stack.net, header, filename, chunks)
  {
    ArchiveWrites(header, filename, chunks);
    ArchiveHeadersLaid(header, filename);
  }

  lemma NothingWritten(header: Headers, filename: string, outcome: Outcome, take: nat)
    requires outcome != Complete
    ensures var e := Export(header, Admitted, filename, [], outcome, take);
            e == Deferred(WriteApiError(Fresh(header), FaultFor(Admitted, outcome), take), false, 0)
  {
    var d := Deferred(Fresh(header), false, 0);
    assert DeferredWrites(d, filename, []) == d;
  }

  /** A download is never mixed with an error envelope.  The client gets the archive's headers and only
      archive bytes exactly when the service wrote at all; otherwise a failure, a panic or a refusal is one
      JSON error; the remaining case, a service that succeeds without writing, is an empty 200 that does not
      claim to be an archive.  The headers are attached at most once, and what is logged is what was sent. */
  lemma DownloadIsAllOrError(header: Headers, gate: Gate, filename: string, chunks: seq<Chunk>, outcome: Outcome, take: nat)
    requires gate.Refused? ==> Final(gate.fault.status)
    ensures var e := Export(header, gate, filename, chunks, outcome, take);
            var net := NetFinish(e.stack.net);
            && e.attached <= 1
            && e.stack.rec.status == net.status && e.stack.rec.bytes == |net.body|
            && (if gate.Admitted? && chunks != [] then IsArchive(net, header, filename, chunks)
                else if gate.Refused? || outcome != Complete then IsError(net, header, FaultFor(gate, outcome), take)
                else net == Commit(FreshNet(header), 200))
  {
    if gate.Refused? {
      ErrorIsWhole(Fresh(header), gate.fault, take);
    } else if chunks != [] {
      SomethingWritten(header, filename, chunks, outcome, take);
    } else if outcome != Complete {
      NothingWritten(header, filename, outcome, take);
      ErrorIsWhole(Fresh(header), FaultFor(gate, outcome), take);
    }
  }

  /* ---------------------------------------------------------------- the objects */

  class Connection {
    var header: Headers
    var committed: bool
    var status: int
    var sent: Headers
    var body: string

    constructor (header: Headers)
      ensures View() == FreshNet(header)
    {
      this.header, committed, status, sent, body := header, false, 0, map[], "";
    }

    ghost function View(): Net
      reads this
    {
      Net(header, committed, status, sent, body)
    }

    method WriteHeader(code: int) returns (panicked: bool)
      modifies this
      ensures View() == NetWriteHeader(old(View()), code)
      ensures panicked == HeaderPanics(old(View()), code)
    {
      panicked := false;
      if committed {
        return;
      }
      if code < 100 || code > 999 {
        panicked := true;
        return;
      }
      if 100 <= code <= 199 && code != 101 {
        return;
      }
      committed, status, sent := true, code, header;
    }

    method Write(data: string, take: nat) returns (written: nat)
      modifies this
      ensures View() == NetWrite(old(View()), data, take)
      ensures written == |body| - |old(body)|
    {
      if !committed {
        var _ := WriteHeader(200);
      }
      if !BodyAllowed(status) {
        assert body + "" == body;
        return 0;
      }
      written := if take <= |data| then take else |data|;
      body := body + data[..written];
    }

    method ReadFrom(data: string, take: nat) returns (written: nat)
      modifies this
      ensures View() == NetReadFrom(old(View()), data, take)
      ensures written == |body| - |old(body)|
    {
      written := 0;
      if data != "" {
        written := Write(data, take);
      }
    }
  }

  class ResponseRecorder {
    const response: Connection
    var status: int
    var bytes: int
    var wroteHeader: bool

    constructor (response: Connection)
      ensures this.response == response
      ensures View() == Stack(response.View(), Rec(200, 0, false))
    {
      this.response := response;
      status, bytes, wroteHeader := 200, 0, false;
    }

    ghost function View(): Stack
      reads this, response
    {
      Stack(response.View(), Rec(status, bytes, wroteHeader))
    }

    method WriteHeader(code: int) returns (panicked: bool)
      modifies this, response
      ensures View() == RecWriteHeader(old(View()), code)
      ensures panicked == HeaderPanics(old(response.View()), code)
    {
      if !wroteHeader {
        status := code;
        wroteHeader := true;
      }
      panicked := response.WriteHeader(code);
    }

    method Write(data: string, take: nat) returns (written: nat)
      modifies this, response
      ensures View() == RecWrite(old(View()), data, take)
    {
      if !wroteHeader {
        var _ := WriteHeader(200);
      }
      written := response.Write(data, take);
      bytes := bytes + written;
    }

    method ReadFrom(data: string, take: nat, panics: bool) returns (panicked: bool)
      modifies this, response
      ensures View() == RecReadFrom(old(View()), data, take, panics) && panicked == panics
    {
      if !wroteHeader {
        var _ := WriteHeader(200);
      }
      var written := response.ReadFrom(data, take);
      panicked := panics;
      if !panicked {
        bytes := bytes + written;
      }
    }

    method SetAll(more: Headers)
      modifies response
      ensures View() == SetHeaders(old(View()), more)
    {
      response.header := response.header + more;
    }

    method SendApiError(e: Fault, take: nat)
      modifies this, response
      ensures View() == WriteApiError(old(View()), e, take)
    {
      SetAll(JSON);
      var _ := WriteHeader(e.status);
      var _ := Write(Envelope(e.code, e.message), take);
    }

    method WriteInternalServerError(api: bool, take: nat)
      modifies this, response
      ensures View() == InternalServerError(old(View()), api, take)
      ensures old(View()) == Fresh(old(response.header)) ==> IsInternalError(response.View(), old(response.header), api, take)
    {
      ghost var before := View();
      if before == Fresh(response.header) {
        InternalErrorIsWhole(before, api, take);
      }
      if api {
        SendApiError(INTERNAL, take);
        return;
      }
      response.header := response.header - {"Content-Length"} + PLAIN;
      var _ := WriteHeader(500);
      var _ := Write("Internal Server Error\n", take);
    }

    /** One call of a handler. */
    method Dispatch(call: Call) returns (panicked: bool)
      modifies this, response
      ensures Ran(View(), panicked) == Perform(old(View()), call)
    {
      panicked := false;
      match call
      case SetHeader(key, value) => SetAll(map[key := value]);
      case WriteHeader(code) => panicked := WriteHeader(code);
      case Write(data, take) => var _ := Write(data, take);
      case ReadFrom(data, take, panics) => panicked := ReadFrom(data, take, panics);
    }
  }

  /** A request through withRequestLogging and withRecovery: the logged status and byte count are those the
      client received if and only if the run is loggable. */
  method ServeRequest(w: Connection, calls: seq<Call>, panics: bool, api: bool, take: nat)
    returns (loggedStatus: int, loggedBytes: int)
    requires w.View() == FreshNet(w.header)
    modifies w
    ensures var end := Request(old(w.header), calls, panics, api, take);
            NetFinish(w.View()) == end.net && loggedStatus == end.rec.status && loggedBytes == end.rec.bytes
    ensures ClientGets(NetFinish(w.View()), old(w.header), calls, panics, api, take)
    ensures loggedStatus == NetFinish(w.View()).status && loggedBytes == |w.body| <==> Loggable(calls)
  {
    ghost var header := w.header;
    var recorder := new ResponseRecorder(w);
    var i, panicked := 0, false;
    while i < |calls| && !panicked
      invariant 0 <= i <= |calls| && recorder.response == w && fresh(recorder)
      invariant Handle(Fresh(header), calls, panics)
             == if panicked then Ran(recorder.View(), true) else Handle(recorder.View(), calls[i..], panics)
    {
      panicked := recorder.Dispatch(calls[i]);
      i := i + 1;
    }
    panicked := panicked || panics;
    if panicked && !recorder.wroteHeader {
      recorder.WriteInternalServerError(api, take);
    }
    loggedStatus, loggedBytes := recorder.status, recorder.bytes;
    LogIsTruthful(header, calls, panics, api, take);
    RecoveryNeverMixes(header, calls, panics, api, take);
  }

  class DeferredHeaderWriter {
    const response: ResponseRecorder
    const filename: string
    var started: bool
    ghost var attached: nat

    constructor (response: ResponseRecorder, filename: string)
      ensures this.response == response && this.filename == filename
      ensures View() == Deferred(response.View(), false, 0)
    {
      this.response, this.filename := response, filename;
      started, attached := false, 0;
    }

    ghost function View(): Deferred
      reads this, response, response.response
    {
      Deferred(response.View(), started, attached)
    }

    method Write(chunk: Chunk)
      modifies this, response, response.response
      ensures View() == DeferredWrite(old(View()), filename, chunk)
    {
      if !started {
        started := true;
        response.SetAll(ArchiveHeaders(filename));
        attached := attached + 1;
      }
      var _ := response.Write(chunk.data, chunk.take);
    }

    /** All that the export service writes. */
    method WriteAll(chunks: seq<Chunk>)
      modifies this, response, response.response
      ensures View() == DeferredWrites(old(View()), filename, chunks)
    {
      for i := 0 to |chunks|
        invariant View() == DeferredWrites(old(View()), filename, chunks[..i])
      {
        Write(chunks[i]);
        assert chunks[..i + 1][..i] == chunks[..i];
      }
      assert chunks[..|chunks|] == chunks;
    }
  }

  /** The export handler: what the service writes, and how it ends, is up to the service. */
  method ExportBundle(w: ResponseRecorder, gate: Gate, filename: string, chunks: seq<Chunk>, outcome: Outcome, take: nat)
    requires w.View() == Fresh(w.response.header)
    requires gate.Refused? ==> Final(gate.fault.status)
    modifies w, w.response
    ensures w.View() == Export(old(w.response.header), gate, filename, chunks, outcome, take).stack
    ensures var net, header := NetFinish(w.response.View()), old(w.response.header);
            if gate.Admitted? && chunks != [] then IsArchive(net, header, filename, chunks)
            else if gate.Refused? || outcome != Complete then IsError(net, header, FaultFor(gate, outcome), take)
            else net == Commit(FreshNet(header), 200)
  {
    ghost var header := w.response.header;
    DownloadIsAllOrError(header, gate, filename, chunks, outcome, take);
    if gate.Refused? {
      w.SendApiError(gate.fault, take);
      return;
    }
    var body := new DeferredHeaderWriter(w, filename);
    body.WriteAll(chunks);
    match outcome
    case Complete =>
    case Failed(busy) =>
      if !body.started {
        if busy {
          w.SendApiError(BUSY, take);
        } else {
          w.SendApiError(INTERNAL, take);
        }
      }
    case Panicked =>
      if !w.wroteHeader {
        w.WriteInternalServerError(true, take);
      }
  }
}
