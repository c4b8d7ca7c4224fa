/** One request and its response: the application's ASGI messages, the writes they cause on the
    connection, the disconnect callback and the end of serve_tornado_request, as atomic steps
    between suspension points (frontik/handler_asgi.py). */
module Exchange {
  import opened Common

  const CLIENT_CLOSED_REQUEST := 499

  datatype Event = Headers(status: int, chunk: Bytes) | Chunk(bytes: Bytes) | Finish

  /** debug: debug_mode.debug_response; head: the request method is HEAD; transform: what the debug
      transform makes of status and body. */
  datatype Setup = Setup(debug: bool, head: bool, transform: (int, Bytes) -> (int, Bytes))

  /** Where the request's coroutines are suspended, or that they have ended. */
  datatype Pc =
    | Running           // the application runs, outside send
    | AwaitHeaders      // inside send, awaiting write_headers
    | AwaitWrite        // inside send, awaiting connection.write
    | Returned          // process_request has returned, serve_tornado_request not yet resumed
    | AwaitFinal        // serve_tornado_request awaits write_headers
    | Finishing
    | Done
    | Dropped           // returned early or cancelled

  /** wire: calls on the connection, except header writes that raised; log: statuses of access-log
      records; sent: body chunks the application has sent, except with such a header write. */
  datatype State = State(
    pc: Pc,
    status: int,
    body: Bytes,
    headersWritten: bool,
    responseDone: bool,
    canceled: bool,
    closeCallback: bool,
    wire: seq<Event>,
    log: seq<int>,
    sent: seq<Bytes>)

  datatype Action =
    | Reject(status: int)                   // request limiter or debug authorisation
    | SendStart(status: int)
    | SendBody(chunk: Bytes, more: bool)
    | SendOther                             // unsupported type: raises in the application
    | HeadersFlushed(closed: bool)          // closed: StreamClosedError
    | HeadersFailed                         // any other exception, raised in the application
    | WriteFlushed
    | AppEnds                               // returns, or raises anything but a cancellation
    | ConnectionClosed                      // _on_connection_close
    | UploadClosed                          // TornadoConnectionHandler.on_connection_close
    | Resume
    | FinalFlushed(closed: bool)
    | FinalFailed                           // any other exception, ends serve_tornado_request
    | Complete

  const START := State(Running, 200, [], false, false, false, true, [], [], [])

  function Visible(p: Setup, chunk: Bytes): Bytes {
    if p.head then [] else chunk
  }

  function OnSendBody(p: Setup, s0: State, chunk: Bytes, more: bool): State {
    var s := s0.(sent := s0.sent + [chunk]);
    if p.debug then s.(body := s.body + chunk)
    else if !s.headersWritten then s.(wire := s.wire + [Headers(s.status, Visible(p, chunk))], pc := AwaitHeaders)
    else if chunk == [] && !more then s.(responseDone := true)
    else s.(wire := s.wire + [Chunk(chunk)], pc := AwaitWrite)
  }

  function OnAppEnds(p: Setup, s: State): State {
    if p.debug && !s.headersWritten then
      var (status, body) := p.transform(s.status, s.body);
      s.(pc := Returned, status := status, body := body)
    else s.(pc := Returned)
  }

  function OnConnectionClosed(s: State): State {
    if s.responseDone then s.(closeCallback := false)
    else s.(closeCallback := false, log := s.log + [CLIENT_CLOSED_REQUEST], canceled := true,
            pc := if s.pc.Returned? then Returned else Dropped)
  }

  function OnResume(p: Setup, s: State): State {
    if s.canceled then s.(closeCallback := false, pc := Dropped)
    else if !s.headersWritten then
      s.(closeCallback := false, wire := s.wire + [Headers(s.status, Visible(p, s.body))], pc := AwaitFinal)
    else s.(closeCallback := false, pc := Finishing)
  }

  function OnFlushed(s: State, closed: bool): State {
    s.(status := if closed then CLIENT_CLOSED_REQUEST else s.status)
  }

  function Init<T>(s: seq<T>): seq<T> {
    if s == [] then [] else s[..|s| - 1]
  }

  function OnHeadersFailed(s: State): State {
    s.(wire := Init(s.wire), sent := Init(s.sent), pc := Running)
  }

  function Next(p: Setup, s: State, a: Action): Option<State> {
    match (a, s.pc)
    case (Reject(status), Running) =>
      if s.sent == [] && !s.headersWritten && s.body == [] then Some(s.(status := status, pc := Returned)) else None
    case (SendStart(status), Running) => Some(s.(status := status))
    case (SendBody(chunk, more), Running) => Some(OnSendBody(p, s, chunk, more))
    case (SendOther, Running) => Some(s)
    case (HeadersFlushed(closed), AwaitHeaders) => Some(OnFlushed(s, closed).(headersWritten := true, pc := Running))
    case (HeadersFailed, AwaitHeaders) => Some(OnHeadersFailed(s))
    case (WriteFlushed, AwaitWrite) => Some(s.(pc := Running))
    case (AppEnds, Running) => Some(OnAppEnds(p, s))
    case (ConnectionClosed, _) => if s.closeCallback then Some(OnConnectionClosed(s)) else None
    case (UploadClosed, _) => Some(s.(canceled := true))
    case (Resume, Returned) => Some(OnResume(p, s))
    case (FinalFlushed(closed), AwaitFinal) => Some(OnFlushed(s, closed).(pc := Finishing))
    case (FinalFailed, AwaitFinal) => Some(s.(wire := Init(s.wire), pc := Dropped))
    case (Complete, Finishing) => Some(s.(log := s.log + [s.status], wire := s.wire + [Finish], pc := Done))
    case _ => None
  }

  function Execute(p: Setup, run: seq<Action>): Option<State> {
    if run == [] then Some(START)
    else
      match Execute(p, run[..|run| - 1])
      case None => None
      case Some(s) => Next(p, s, run[|run| - 1])
  }

  /******* The code *******/

  class Handler {
    const debug: bool
    const head: bool
    const transform: (int, Bytes) -> (int, Bytes)
    var pc: Pc
    var status: int
    var body: Bytes
    var headersWritten: bool
    var responseDone: bool
    var canceled: bool
    var closeCallback: bool
    var wire: seq<Event>
    var log: seq<int>
    var sent: seq<Bytes>

    function View(): State
      reads this
    {
      State(pc, status, body, headersWritten, responseDone, canceled, closeCallback, wire, log, sent)
    }

    function Params(): Setup {
      Setup(debug, head, transform)
    }

    constructor (p: Setup)
      ensures Params() == p && View() == START
    {
      debug, head, transform := p.debug, p.head, p.transform;
      pc, status, body, headersWritten := Running, 200, [], false;
      responseDone, canceled, closeCallback := false, false, true;
      wire, log, sent := [], [], [];
    }

    /** write_start_line up to its await. */
    method BeginHeaders(chunk: Bytes)
      modifies this`wire
      ensures wire == old(wire) + [Headers(status, Visible(Params(), chunk))]
    {
      var visible := chunk;
      if head {
        visible := [];
      }
      wire := wire + [Headers(status, visible)];
    }

    /** send for 'http.response.body', up to its await if it has one. */
    method SendBody(chunk: Bytes, more: bool)
      requires pc.Running?
      modifies this
      ensures Some(View()) == Next(Params(), old(View()), Action.SendBody(chunk, more))
    {
      sent := sent + [chunk];
      if debug {
        body := body + chunk;
      } else if !headersWritten {
        BeginHeaders(chunk);
        pc := AwaitHeaders;
      } else {
        if chunk == [] && !more {
          responseDone := true;
          return;
        }
        wire := wire + [Chunk(chunk)];
        pc := AwaitWrite;
      }
    }

    method EndHeaders(closed: bool)
      requires pc.AwaitHeaders?
      modifies this
      ensures Some(View()) == Next(Params(), old(View()), HeadersFlushed(closed))
    {
      if closed {
        status := CLIENT_CLOSED_REQUEST;
      }
      headersWritten := true;
      pc := Running;
    }

    method FailHeaders()
      requires pc.AwaitHeaders?
      modifies this
      ensures Some(View()) == Next(Params(), old(View()), HeadersFailed)
    {
      wire, sent := Init(wire), Init(sent);
      pc := Running;
    }

    method OnConnectionClose()
      requires closeCallback
      modifies this
      ensures Some(View()) == Next(Params(), old(View()), ConnectionClosed)
    {
      closeCallback := false;
      if responseDone {
        return;
      }
      log := log + [CLIENT_CLOSED_REQUEST];
      canceled := true;
      if !pc.Returned? {
        pc := Dropped;
      }
    }

    /** serve_tornado_request after its await on the processing task. */
    method ResumeServe()
      requires pc.Returned?
      modifies this
      ensures Some(View()) == Next(Params(), old(View()), Resume)
    {
      closeCallback := false;
      if canceled {
        pc := Dropped;
        return;
      }
      if !headersWritten {
        BeginHeaders(body);
        pc := AwaitFinal;
      } else {
        pc := Finishing;
      }
    }
  }

  /******* Wire safety *******/

  function Join(chunks: seq<Bytes>): Bytes {
    if chunks == [] then [] else Join(chunks[..|chunks| - 1]) + chunks[|chunks| - 1]
  }

  function BytesOf(e: Event): Bytes {
    match e
    case Headers(_, chunk) => chunk
    case Chunk(bytes) => bytes
    case Finish => []
  }

  /** The body bytes on the wire. */
  function Payload(wire: seq<Event>): Bytes {
    if wire == [] then [] else Payload(wire[..|wire| - 1]) + BytesOf(wire[|wire| - 1])
  }

  /** Headers first and once, then only chunks. */
  predicate Open(wire: seq<Event>) {
    |wire| > 0 && wire[0].Headers? && forall i | 0 < i < |wire| :: wire[i].Chunk?
  }

  predicate Closed(wire: seq<Event>) {
    |wire| > 1 && wire[|wire| - 1].Finish? && Open(wire[..|wire| - 1])
  }

  predicate WireInv(s: State) {
    match s.pc
    case Running => if s.headersWritten then Open(s.wire) else s.wire == []
    case AwaitHeaders => Open(s.wire) && |s.wire| == 1 && !s.headersWritten
    case AwaitWrite => Open(s.wire) && s.headersWritten
    case Returned => if s.headersWritten then Open(s.wire) else s.wire == []
    case AwaitFinal => Open(s.wire) && |s.wire| == 1 && !s.headersWritten
    case Finishing => Open(s.wire)
    case Done => Closed(s.wire)
    case Dropped => s.wire == [] || Open(s.wire)
  }

  predicate LogInv(s: State) {
    match s.pc
    case Returned => s.log == [] || (s.log == [CLIENT_CLOSED_REQUEST] && s.canceled && !s.closeCallback)
    case AwaitFinal => s.log == [] && !s.closeCallback
    case Finishing => s.log == [] && !s.closeCallback
    case Done => s.log == [s.status] && !s.closeCallback
    case Dropped => |s.log| <= 1 && !s.closeCallback
    case _ => s.log == []
  }

  /** Outside debug mode, what is on the wire is what was sent, less the first chunk for HEAD. */
  predicate PayloadInv(p: Setup, s: State) {
    if p.debug then
      && s.responseDone == s.headersWritten == false
      && (s.pc.Running? ==> s.body == Join(s.sent))
      && !s.pc.AwaitHeaders? && !s.pc.AwaitWrite?
    else
      && s.body == []
      && (s.wire == [] ==> s.sent == []) && (s.headersWritten || s.pc.AwaitHeaders? ==> s.sent != [])
      && (s.pc.AwaitHeaders? ==> |s.sent| == 1) && (s.pc.AwaitFinal? ==> s.sent == [])
      && Payload(s.wire) == if p.head then Join(if s.sent == [] then [] else s.sent[1..]) else Join(s.sent)
  }

  predicate Inv(p: Setup, s: State) {
    WireInv(s) && LogInv(s) && PayloadInv(p, s)
  }

  lemma JoinLast(chunks: seq<Bytes>, chunk: Bytes)
    ensures Join(chunks + [chunk]) == Join(chunks) + chunk
    ensures chunks != [] ==> Join((chunks + [chunk])[1..]) == Join(chunks[1..]) + chunk
  {
    assert (chunks + [chunk])[..|chunks|] == chunks;
    if chunks != [] {
      var t := (chunks + [chunk])[1..];
      assert t == chunks[1..] + [chunk];
      assert t[..|t| - 1] == chunks[1..];
    }
  }

  lemma PayloadLast(wire: seq<Event>, e: Event)
    ensures Payload(wire + [e]) == Payload(wire) + BytesOf(e)
  {
    assert (wire + [e])[..|wire|] == wire;
  }

  lemma SendBodyKeepsWire(p: Setup, s: State, chunk: Bytes, more: bool)
    requires Inv(p, s) && s.pc.Running?
    ensures WireInv(OnSendBody(p, s, chunk, more)) && LogInv(OnSendBody(p, s, chunk, more))
  {
  }

  /** A chunk that goes out after the headers, or is empty and goes nowhere. */
  lemma LaterChunk(p: Setup, wire: seq<Event>, sent: seq<Bytes>, chunk: Bytes)
    requires sent != []
    requires Payload(wire) == if p.head then Join(sent[1..]) else Join(sent)
    ensures Payload(wire + [Chunk(chunk)]) == if p.head then Join((sent + [chunk])[1..]) else Join(sent + [chunk])
    ensures chunk == [] ==> Payload(wire) == if p.head then Join((sent + [chunk])[1..]) else Join(sent + [chunk])
  {
    JoinLast(sent, chunk);
    PayloadLast(wire, Chunk(chunk));
    if chunk == [] {
      assert Payload(wire) + [] == Payload(wire);
    }
  }

  lemma FirstChunk(p: Setup, status: int, chunk: Bytes)
    ensures Payload([Headers(status, Visible(p, chunk))]) == if p.head then Join([chunk][1..]) else Join([chunk])
  {
    JoinLast([], chunk);
    PayloadLast([], Headers(status, Visible(p, chunk)));
    assert [] + [chunk] == [chunk] && [] + chunk == chunk && [chunk][1..] == [];
    assert [] + [Headers(status, Visible(p, chunk))] == [Headers(status, Visible(p, chunk))];
  }

  lemma FirstBodyKeepsPayload(p: Setup, s: State, chunk: Bytes, more: bool)
    requires Inv(p, s) && s.pc.Running? && !p.debug && !s.headersWritten
    ensures PayloadInv(p, OnSendBody(p, s, chunk, more))
  {
    FirstChunk(p, s.status, chunk);
    assert s.sent + [chunk] == [chunk];
    assert s.wire + [Headers(s.status, Visible(p, chunk))] == [Headers(s.status, Visible(p, chunk))];
  }

  lemma LaterBodyKeepsPayload(p: Setup, s: State, chunk: Bytes, more: bool)
    requires Inv(p, s) && s.pc.Running? && !p.debug && s.headersWritten
    ensures PayloadInv(p, OnSendBody(p, s, chunk, more))
  {
    LaterChunk(p, s.wire, s.sent, chunk);
  }

  lemma SendBodyKeepsInv(p: Setup, s: State, chunk: Bytes, more: bool)
    requires Inv(p, s) && s.pc.Running?
    ensures Inv(p, OnSendBody(p, s, chunk, more))
  {
    SendBodyKeepsWire(p, s, chunk, more);
    if p.debug {
      JoinLast(s.sent, chunk);
    } else if !s.headersWritten {
      FirstBodyKeepsPayload(p, s, chunk, more);
    } else {
      LaterBodyKeepsPayload(p, s, chunk, more);
    }
  }

  lemma ResumeKeepsInv(p: Setup, s: State)
    requires Inv(p, s) && s.pc.Returned?
    ensures Inv(p, OnResume(p, s))
  {
    if !s.canceled && !s.headersWritten {
      PayloadLast([], Headers(s.status, Visible(p, s.body)));
      assert [] + [Headers(s.status, Visible(p, s.body))] == [Headers(s.status, Visible(p, s.body))];
    }
  }

  lemma CompleteKeepsInv(p: Setup, s: State)
    requires Inv(p, s) && s.pc.Finishing?
    ensures Inv(p, Next(p, s, Complete).value)
  {
    PayloadLast(s.wire, Finish);
    assert (s.wire + [Finish])[..|s.wire|] == s.wire;
    assert Payload(s.wire) + [] == Payload(s.wire);
  }

  /** The remaining steps write nothing and send nothing. */
  lemma AppStepsKeepInv(p: Setup, s: State, a: Action)
    requires Inv(p, s) && (a.Reject? || a.SendStart? || a.SendOther? || a.AppEnds?) && Next(p, s, a).Some?
    ensures Inv(p, Next(p, s, a).value)
  {
  }

  lemma FlushKeepsInv(p: Setup, s: State, a: Action)
    requires Inv(p, s) && (a.HeadersFlushed? || a.WriteFlushed? || a.FinalFlushed?) && Next(p, s, a).Some?
    ensures Inv(p, Next(p, s, a).value)
  {
  }

  /** A header write that raises leaves nothing behind. */
  lemma FailureKeepsInv(p: Setup, s: State, a: Action)
    requires Inv(p, s) && (a.HeadersFailed? || a.FinalFailed?) && Next(p, s, a).Some?
    ensures Inv(p, Next(p, s, a).value)
  {
    assert Init(s.wire) == [];
    assert s.pc.AwaitHeaders? && !p.debug ==> Init(s.sent) == [];
  }

  lemma CloseKeepsInv(p: Setup, s: State, a: Action)
    requires Inv(p, s) && (a.ConnectionClosed? || a.UploadClosed?) && Next(p, s, a).Some?
    ensures Inv(p, Next(p, s, a).value)
  {
  }

  lemma StepKeepsInv(p: Setup, s: State, a: Action)
    requires Inv(p, s) && Next(p, s, a).Some?
    ensures Inv(p, Next(p, s, a).value)
  {
    match a
    case SendBody(chunk, more) => SendBodyKeepsInv(p, s, chunk, more);
    case Resume => ResumeKeepsInv(p, s);
    case Complete => CompleteKeepsInv(p, s);
    case Reject(_) => AppStepsKeepInv(p, s, a);
    case SendStart(_) => AppStepsKeepInv(p, s, a);
    case SendOther => AppStepsKeepInv(p, s, a);
    case AppEnds => AppStepsKeepInv(p, s, a);
    case HeadersFailed => FailureKeepsInv(p, s, a);
    case FinalFailed => FailureKeepsInv(p, s, a);
    case ConnectionClosed => CloseKeepsInv(p, s, a);
    case UploadClosed => CloseKeepsInv(p, s, a);
    case _ => FlushKeepsInv(p, s, a);
  }

  lemma {:induction false} RunKeepsInv(p: Setup, run: seq<Action>)
    requires Execute(p, run).Some?
    ensures Inv(p, Execute(p, run).value)
  {
    if run != [] {
      var n := |run| - 1;
      RunKeepsInv(p, run[..n]);
      var s := Execute(p, run[..n]).value;
      StepKeepsInv(p, s, run[n]);
    }
  }

  function CountHeaders(wire: seq<Event>): nat {
    if wire == [] then 0
    else CountHeaders(wire[..|wire| - 1]) + (if wire[|wire| - 1].Headers? then 1 else 0)
  }

  lemma {:induction false} OpenHasOneHeader(wire: seq<Event>)
    requires Open(wire)
    ensures CountHeaders(wire) == 1
  {
    if |wire| > 1 {
      OpenHasOneHeader(wire[..|wire| - 1]);
    } else {
      assert wire[..0] == [];
    }
  }

  predicate Safe(s: State) {
    && CountHeaders(s.wire) <= 1
    && (s.wire != [] ==> s.wire[0].Headers?)
    && (s.pc.Done? ==> Closed(s.wire) && CountHeaders(s.wire) == 1 && s.log == [s.status])
    && (!s.pc.Done? ==> Finish !in s.wire)
    && |s.log| <= 1
  }

  lemma InvIsSafe(s: State)
    requires WireInv(s) && LogInv(s)
    ensures Safe(s)
  {
    if s.pc.Done? {
      var init := s.wire[..|s.wire| - 1];
      OpenHasOneHeader(init);
      assert s.wire[0] == init[0];
    } else if s.wire != [] {
      OpenHasOneHeader(s.wire);
    }
  }

  /** For every sequence of application messages and every timing of disconnects: headers are written
      at most once and before anything else; a served request wrote them exactly once, then its
      chunks, then finish, and nothing else is finished; at most one access-log record is written,
      and exactly one with the response's status for a served request. */
  lemma {:induction false} ResponseWireSafety(p: Setup, run: seq<Action>)
    requires Execute(p, run).Some?
    ensures Safe(Execute(p, run).value)
  {
    RunKeepsInv(p, run);
    InvIsSafe(Execute(p, run).value);
  }

  /** The processing coroutine has returned and the request is not cancelled: what is left of
      serve_tornado_request completes it, with exactly one header write in all. */
  lemma UncancelledIsServed(p: Setup, run: seq<Action>, closed: bool)
    requires Execute(p, run).Some?
    requires Execute(p, run).value.pc.Returned? && !Execute(p, run).value.canceled
    ensures var s := Execute(p, run).value;
            var rest := if s.headersWritten then [Resume, Complete] else [Resume, FinalFlushed(closed), Complete];
            && Execute(p, run + rest).Some?
            && var end := Execute(p, run + rest).value;
               && end.pc.Done? && CountHeaders(end.wire) == 1 && |end.log| == 1
               && end.wire == s.wire + (if s.headersWritten then [] else [Headers(s.status, Visible(p, s.body))])
                              + [Finish]
  {
    var s := Execute(p, run).value;
    if s.headersWritten {
      TwoMore(p, run, Resume, Complete);
      ResponseWireSafety(p, run + [Resume, Complete]);
    } else {
      ThreeMore(p, run, Resume, FinalFlushed(closed), Complete);
      ResponseWireSafety(p, run + [Resume, FinalFlushed(closed), Complete]);
    }
  }

  lemma TwoMore(p: Setup, run: seq<Action>, a: Action, b: Action)
    requires Execute(p, run).Some? && Next(p, Execute(p, run).value, a).Some?
    ensures Execute(p, run + [a, b]) == Next(p, Next(p, Execute(p, run).value, a).value, b)
  {
    ExecuteMore(p, run, a);
    ExecuteMore(p, run + [a], b);
    assert run + [a] + [b] == run + [a, b];
  }

  lemma Extended(run: seq<Action>, a: Action, b: Action, c: Action)
    ensures run + [a, b] + [c] == run + [a, b, c]
  {
  }

  lemma ThreeMore(p: Setup, run: seq<Action>, a: Action, b: Action, c: Action)
    requires Execute(p, run).Some? && Next(p, Execute(p, run).value, a).Some?
    requires Next(p, Next(p, Execute(p, run).value, a).value, b).Some?
    ensures Execute(p, run + [a, b, c]) == Next(p, Next(p, Next(p, Execute(p, run).value, a).value, b).value, c)
  {
    TwoMore(p, run, a, b);
    ExecuteMore(p, run + [a, b], c);
    Extended(run, a, b, c);
  }

  lemma ExecuteMore(p: Setup, run: seq<Action>, a: Action)
    requires Execute(p, run).Some?
    ensures Execute(p, run + [a]) == Next(p, Execute(p, run).value, a)
  {
    assert (run + [a])[..|run|] == run;
  }

  /** The status of the application's last 'http.response.start', 200 before any. */
  function LastStarted(run: seq<Action>): int {
    if run == [] then 200
    else
      var a := run[|run| - 1];
      if a.SendStart? then a.status else LastStarted(run[..|run| - 1])
  }

  predicate Unwritten(s: State) {
    (s.pc.Running? || s.pc.AwaitHeaders?) && !s.headersWritten
  }

  /** Until the headers are written only the application changes the status. */
  lemma StatusStep(p: Setup, s: State, a: Action)
    requires WireInv(s) && Next(p, s, a).Some? && Unwritten(Next(p, s, a).value)
    ensures Unwritten(s) && Next(p, s, a).value.status == if a.SendStart? then a.status else s.status
  {
  }

  lemma {:induction false} StatusIsLastStarted(p: Setup, run: seq<Action>)
    requires Execute(p, run).Some? && Unwritten(Execute(p, run).value)
    ensures Execute(p, run).value.status == LastStarted(run)
  {
    if run != [] {
      var n := |run| - 1;
      RunKeepsInv(p, run[..n]);
      StatusStep(p, Execute(p, run[..n]).value, run[n]);
      StatusIsLastStarted(p, run[..n]);
    }
  }

  /******* Disconnects *******/

  /** The headers have been written, told from the run. */
  predicate HeadersOut(run: seq<Action>) {
    exists i | 0 <= i < |run| :: run[i].HeadersFlushed?
  }

  /** After the headers the application has sent a last chunk that is empty. */
  predicate SaidDone(run: seq<Action>) {
    exists i | 0 <= i < |run| :: run[i] == SendBody([], false) && HeadersOut(run[..i])
  }

  lemma SaidMore(run: seq<Action>, a: Action)
    ensures HeadersOut(run + [a]) <==> HeadersOut(run) || a.HeadersFlushed?
    ensures SaidDone(run + [a]) <==> SaidDone(run) || (a == SendBody([], false) && HeadersOut(run))
  {
    var more := run + [a];
    assert more[|run|] == a && more[..|run|] == run;
    assert forall i | 0 <= i < |run| :: more[i] == run[i] && more[..i] == run[..i];
    if i :| 0 <= i < |run| && run[i].HeadersFlushed? {
      assert more[i].HeadersFlushed?;
    }
    if i :| 0 <= i < |run| && run[i] == SendBody([], false) && HeadersOut(run[..i]) {
      assert more[i] == SendBody([], false) && HeadersOut(more[..i]);
    }
  }

  predicate DoneFlags(p: Setup, run: seq<Action>, s: State) {
    (s.headersWritten <==> HeadersOut(run)) && (s.responseDone <==> !p.debug && SaidDone(run))
  }

  lemma DoneStep(p: Setup, run: seq<Action>, s: State, a: Action)
    requires Inv(p, s) && DoneFlags(p, run, s) && Next(p, s, a).Some?
    ensures DoneFlags(p, run + [a], Next(p, s, a).value)
  {
    SaidMore(run, a);
  }

  lemma {:induction false} DoneIsSaid(p: Setup, run: seq<Action>)
    requires Execute(p, run).Some?
    ensures DoneFlags(p, run, Execute(p, run).value)
  {
    if run != [] {
      var n := |run| - 1;
      DoneIsSaid(p, run[..n]);
      RunKeepsInv(p, run[..n]);
      DoneStep(p, run[..n], Execute(p, run[..n]).value, run[n]);
      assert run == run[..n] + [run[n]];
    }
  }

  /** A disconnect at any point of any run: if the application has sent an empty last chunk after the
      headers, outside debug mode, nothing is logged and nothing cancelled; otherwise the request is
      cancelled with one 499 record, and dropped unless its coroutine has returned already. */
  lemma DisconnectCancelsUnlessDone(p: Setup, run: seq<Action>)
    requires Execute(p, run).Some? && Execute(p, run).value.closeCallback
    ensures var s := Execute(p, run).value;
            var next := Execute(p, run + [ConnectionClosed]);
            && next.Some?
            && (if !p.debug && SaidDone(run) then next.value == s.(closeCallback := false)
                else && next.value.log == s.log + [CLIENT_CLOSED_REQUEST] && next.value.canceled
                     && next.value.wire == s.wire
                     && (next.value.pc.Returned? <==> s.pc.Returned?)
                     && (!s.pc.Returned? ==> next.value.pc.Dropped?))
  {
    ExecuteMore(p, run, ConnectionClosed);
    DoneIsSaid(p, run);
  }

  /** Over whole runs: there is a 499 record of the disconnect exactly if it came before such a chunk. */
  lemma CancelledExactly(p: Setup, a: seq<Action>, b: seq<Action>)
    requires Execute(p, a + [ConnectionClosed] + b).Some? && UploadClosed !in a + [ConnectionClosed] + b
    ensures Execute(p, a).Some? && Execute(p, a).value.closeCallback
    ensures Execute(p, a + [ConnectionClosed] + b).value.canceled <==> p.debug || !SaidDone(a)
  {
    PrefixExecutes(p, a, [ConnectionClosed] + b);
    assert a + [ConnectionClosed] + b == a + ([ConnectionClosed] + b);
    PrefixExecutes(p, a + [ConnectionClosed], b);
    ExecuteMore(p, a, ConnectionClosed);
    OnlyClosesCancel(p, a);
    DisconnectCancelsUnlessDone(p, a);
    ClosedOnce(p, a + [ConnectionClosed], b);
  }

  lemma {:induction false} PrefixExecutes(p: Setup, a: seq<Action>, b: seq<Action>)
    requires Execute(p, a + b).Some?
    ensures Execute(p, a).Some?
    decreases |b|
  {
    if b == [] {
      assert a + b == a;
    } else {
      assert (a + b)[..|a + b| - 1] == a + b[..|b| - 1];
      PrefixExecutes(p, a, b[..|b| - 1]);
    }
  }

  lemma CallbackStep(p: Setup, s: State, a: Action)
    requires Next(p, s, a).Some?
    ensures !s.closeCallback ==> !Next(p, s, a).value.closeCallback && !a.ConnectionClosed?
    ensures a.ConnectionClosed? ==> !Next(p, s, a).value.closeCallback
    ensures !a.UploadClosed? && !a.ConnectionClosed? ==> Next(p, s, a).value.canceled == s.canceled
  {
  }

  /** While the callback is set nothing but the upload's end can have cancelled. */
  lemma {:induction false} OnlyClosesCancel(p: Setup, run: seq<Action>)
    requires Execute(p, run).Some? && UploadClosed !in run && Execute(p, run).value.closeCallback
    ensures !Execute(p, run).value.canceled
  {
    if run != [] {
      var n := |run| - 1;
      assert run == run[..n] + [run[n]];
      CallbackStep(p, Execute(p, run[..n]).value, run[n]);
      OnlyClosesCancel(p, run[..n]);
    }
  }

  lemma {:induction false} ClosedOnce(p: Setup, a: seq<Action>, b: seq<Action>)
    requires Execute(p, a).Some? && !Execute(p, a).value.closeCallback
    requires Execute(p, a + b).Some? && UploadClosed !in b
    ensures !Execute(p, a + b).value.closeCallback
    ensures Execute(p, a + b).value.canceled == Execute(p, a).value.canceled
    decreases |b|
  {
    if b == [] {
      assert a + b == a;
    } else {
      var n := |b| - 1;
      assert (a + b)[..|a + b| - 1] == a + b[..n] && b == b[..n] + [b[n]];
      ClosedOnce(p, a, b[..n]);
      CallbackStep(p, Execute(p, a + b[..n]).value, b[n]);
    }
  }

  predicate PastResume(pc: Pc) {
    pc.AwaitFinal? || pc.Finishing? || pc.Done?
  }

  lemma CancelledStep(p: Setup, s: State, a: Action)
    requires Next(p, s, a).Some? && s.canceled && !PastResume(s.pc)
    ensures Next(p, s, a).value.canceled && !PastResume(Next(p, s, a).value.pc)
  {
  }

  /** A request cancelled before serve_tornado_request resumes is never completed, whatever follows. */
  lemma {:induction false} CancelledIsNeverServed(p: Setup, a: seq<Action>, b: seq<Action>)
    requires Execute(p, a).Some? && Execute(p, a).value.canceled && !PastResume(Execute(p, a).value.pc)
    requires Execute(p, a + b).Some?
    ensures Execute(p, a + b).value.canceled && !PastResume(Execute(p, a + b).value.pc)
    ensures Finish !in Execute(p, a + b).value.wire
    decreases |b|
  {
    if b == [] {
      assert a + b == a;
    } else {
      var n := |b| - 1;
      assert (a + b)[..|a + b| - 1] == a + b[..n];
      CancelledIsNeverServed(p, a, b[..n]);
      CancelledStep(p, Execute(p, a + b[..n]).value, b[n]);
    }
    ResponseWireSafety(p, a + b);
  }

  /** In particular if the connection was lost while the request was coming in or being processed. */
  lemma LostUploadIsNeverServed(p: Setup, a: seq<Action>, b: seq<Action>)
    requires Execute(p, a).Some? && !PastResume(Execute(p, a).value.pc)
    ensures Execute(p, a + [UploadClosed]).Some?
    ensures Execute(p, a + [UploadClosed] + b).Some? ==>
              && !PastResume(Execute(p, a + [UploadClosed] + b).value.pc)
              && Finish !in Execute(p, a + [UploadClosed] + b).value.wire
  {
    ExecuteMore(p, a, UploadClosed);
    if Execute(p, a + [UploadClosed] + b).Some? {
      CancelledIsNeverServed(p, a + [UploadClosed], b);
    }
  }

  /******* Statuses *******/

  /** Outside debug mode: the last status anybody set, the application, a rejection, or a header write
      that found the stream closed. */
  function LastStatus(run: seq<Action>): int {
    if run == [] then 200
    else
      match run[|run| - 1]
      case Reject(status) => status
      case SendStart(status) => status
      case HeadersFlushed(closed) => if closed then CLIENT_CLOSED_REQUEST else LastStatus(run[..|run| - 1])
      case FinalFlushed(closed) => if closed then CLIENT_CLOSED_REQUEST else LastStatus(run[..|run| - 1])
      case _ => LastStatus(run[..|run| - 1])
  }

  lemma LastStatusStep(p: Setup, run: seq<Action>, s: State, a: Action)
    requires !p.debug && s.status == LastStatus(run) && Next(p, s, a).Some?
    ensures Next(p, s, a).value.status == LastStatus(run + [a])
  {
    assert (run + [a])[..|run|] == run;
  }

  lemma {:induction false} StatusIsLast(p: Setup, run: seq<Action>)
    requires !p.debug && Execute(p, run).Some?
    ensures Execute(p, run).value.status == LastStatus(run)
  {
    if run != [] {
      var n := |run| - 1;
      StatusIsLast(p, run[..n]);
      LastStatusStep(p, run[..n], Execute(p, run[..n]).value, run[n]);
      assert run == run[..n] + [run[n]];
    }
  }

  /** A served request is logged once, with that status. */
  lemma LoggedStatus(p: Setup, run: seq<Action>)
    requires !p.debug && Execute(p, run).Some? && Execute(p, run).value.pc.Done?
    ensures Execute(p, run).value.log == [LastStatus(run)]
  {
    ResponseWireSafety(p, run);
    StatusIsLast(p, run);
  }

  /******* What goes out *******/

  /** The first body message writes the headers, with the last status started and its own chunk. */
  lemma FirstBodyWritesHeaders(p: Setup, run: seq<Action>, chunk: Bytes, more: bool)
    requires Execute(p, run).Some? && !p.debug
    requires Execute(p, run).value.pc.Running? && !Execute(p, run).value.headersWritten
    ensures var next := Execute(p, run + [SendBody(chunk, more)]);
            next.Some? && next.value.wire == [Headers(LastStarted(run), Visible(p, chunk))]
  {
    RunKeepsInv(p, run);
    StatusIsLastStarted(p, run);
    ExecuteMore(p, run, SendBody(chunk, more));
  }

  /** The chunks the application has sent, except with header writes that raised, told from the run. */
  function SentIn(run: seq<Action>): seq<Bytes> {
    if run == [] then []
    else
      var before := SentIn(run[..|run| - 1]);
      match run[|run| - 1]
      case SendBody(chunk, _) => before + [chunk]
      case HeadersFailed => Init(before)
      case _ => before
  }

  lemma SentStep(p: Setup, run: seq<Action>, s: State, a: Action)
    requires s.sent == SentIn(run) && Next(p, s, a).Some?
    ensures Next(p, s, a).value.sent == SentIn(run + [a])
  {
    assert (run + [a])[..|run|] == run;
  }

  lemma {:induction false} SentIsSaid(p: Setup, run: seq<Action>)
    requires Execute(p, run).Some?
    ensures Execute(p, run).value.sent == SentIn(run)
  {
    if run != [] {
      var n := |run| - 1;
      SentIsSaid(p, run[..n]);
      SentStep(p, run[..n], Execute(p, run[..n]).value, run[n]);
      assert run == run[..n] + [run[n]];
    }
  }

  /** In debug mode the only write is one of headers, with the transform of the last status started
      and of everything sent. */
  lemma DebugResponse(p: Setup, run: seq<Action>)
    requires Execute(p, run).Some? && p.debug
    requires Execute(p, run).value.pc.Running? && !Execute(p, run).value.canceled
    ensures var (status, body) := p.transform(LastStarted(run), Join(SentIn(run)));
            var end := Execute(p, run + [AppEnds] + [Resume]);
            end.Some? && end.value.wire == [Headers(status, Visible(p, body))]
  {
    RunKeepsInv(p, run);
    StatusIsLastStarted(p, run);
    SentIsSaid(p, run);
    ExecuteMore(p, run, AppEnds);
    ExecuteMore(p, run + [AppEnds], Resume);
  }

  /** Outside debug mode the body on the wire is the concatenation of the chunks sent. For HEAD only
      the first chunk is withheld: the body is empty exactly if all later chunks are. */
  lemma {:induction false} BodyIsWhatWasSent(p: Setup, run: seq<Action>)
    requires Execute(p, run).Some? && !p.debug
    ensures var wire, sent := Execute(p, run).value.wire, SentIn(run);
            && (!p.head ==> Payload(wire) == Join(sent))
            && (p.head ==> Payload(wire) == Join(if sent == [] then [] else sent[1..]))
            && (p.head ==> (Payload(wire) == [] <==> forall i | 0 < i < |sent| :: sent[i] == []))
  {
    RunKeepsInv(p, run);
    SentIsSaid(p, run);
    var s := Execute(p, run).value;
    if p.head && s.sent != [] {
      EmptyTail(s.sent);
    }
  }

  lemma EmptyTail(chunks: seq<Bytes>)
    requires chunks != []
    ensures Join(chunks[1..]) == [] <==> forall i | 0 < i < |chunks| :: chunks[i] == []
  {
    var rest := chunks[1..];
    EmptyJoin(rest);
    assert forall i | 0 < i < |chunks| :: chunks[i] == rest[i - 1];
    assert forall i | 0 <= i < |rest| :: rest[i] == chunks[i + 1];
  }

  /** Two chunks in answer to a HEAD request: the second one is passed to connection.write. */
  lemma HeadSendsSecondChunk(p: Setup)
    requires p.head && !p.debug
    ensures var run := [SendBody([1], true), HeadersFlushed(false), SendBody([2], true)];
            && Execute(p, run).Some?
            && Execute(p, run).value.wire == [Headers(200, []), Chunk([2])]
            && Payload(Execute(p, run).value.wire) == [2]
  {
    var run := [SendBody([1], true), HeadersFlushed(false), SendBody([2], true)];
    var headers := Headers(200, []);
    assert [] + [headers] == [headers];
    ThreeMore(p, [], run[0], run[1], run[2]);
    assert [] + run == run;
    assert [headers] + [Chunk([2])] == [headers, Chunk([2])];
    PayloadLast([], headers);
    PayloadLast([headers], Chunk([2]));
  }

  lemma {:induction false} EmptyJoin(chunks: seq<Bytes>)
    ensures Join(chunks) == [] <==> forall i | 0 <= i < |chunks| :: chunks[i] == []
  {
    if chunks != [] {
      var n := |chunks| - 1;
      EmptyJoin(chunks[..n]);
      assert forall i | 0 <= i < n :: chunks[..n][i] == chunks[i];
    }
  }

  /******* Whole responses *******/

  lemma HeadersThenChunk(p: Setup, status: int, first: Bytes, second: Bytes)
    requires !p.debug
    ensures var s := Execute(p, [SendStart(status), SendBody(first, true), HeadersFlushed(false)]
                                + [SendBody(second, true), WriteFlushed, SendBody([], false)]);
            second != [] ==>
              && s.Some? && s.value.wire == [Headers(status, Visible(p, first)), Chunk(second)] && s.value.log == []
              && s.value.pc.Running? && s.value.headersWritten && s.value.responseDone && !s.value.canceled
              && s.value.status == status && s.value.closeCallback
  {
    var a := [SendStart(status), SendBody(first, true), HeadersFlushed(false)];
    ThreeMore(p, [], a[0], a[1], a[2]);
    assert [] + a == a;
    var headers := Headers(status, Visible(p, first));
    assert [] + [headers] == [headers];
    if second != [] {
      ThreeMore(p, a, SendBody(second, true), WriteFlushed, SendBody([], false));
      assert [headers] + [Chunk(second)] == [headers, Chunk(second)];
    }
  }

  /** An application that starts a response, sends two chunks and an empty last one, and returns. */
  lemma PlainResponse(p: Setup, status: int, first: Bytes, second: Bytes)
    requires !p.debug && second != []
    ensures var run := [SendStart(status), SendBody(first, true), HeadersFlushed(false)]
                       + [SendBody(second, true), WriteFlushed, SendBody([], false)] + [AppEnds, Resume, Complete];
            && Execute(p, run).Some?
            && Execute(p, run).value.wire == [Headers(status, Visible(p, first)), Chunk(second), Finish]
            && Execute(p, run).value.log == [status] && Execute(p, run).value.pc.Done?
  {
    var ab := [SendStart(status), SendBody(first, true), HeadersFlushed(false)]
              + [SendBody(second, true), WriteFlushed, SendBody([], false)];
    HeadersThenChunk(p, status, first, second);
    ThreeMore(p, ab, AppEnds, Resume, Complete);
    assert [Headers(status, Visible(p, first)), Chunk(second)] + [Finish] ==
           [Headers(status, Visible(p, first)), Chunk(second), Finish];
  }

  /** A request rejected before the application runs gets its status and an empty body. */
  lemma RejectedResponse(p: Setup, status: int, closed: bool)
    ensures var run := [Reject(status), Resume, FinalFlushed(closed)] + [Complete];
            && Execute(p, run).Some? && Execute(p, run).value.wire == [Headers(status, []), Finish]
            && Execute(p, run).value.log == [if closed then CLIENT_CLOSED_REQUEST else status]
  {
    var a := [Reject(status), Resume, FinalFlushed(closed)];
    ThreeMore(p, [], a[0], a[1], a[2]);
    assert [] + a == a;
    assert [] + [Headers(status, [])] == [Headers(status, [])];
    ExecuteMore(p, a, Complete);
    assert [Headers(status, [])] + [Finish] == [Headers(status, []), Finish];
  }

  /** If the application's header write raises and the application gives up, the headers are written at
      the end, with the status it had started and no body. */
  lemma FailedHeadersAreWrittenAtTheEnd(p: Setup, status: int, chunk: Bytes)
    requires !p.debug
    ensures var failing := [SendStart(status), SendBody(chunk, true), HeadersFailed];
            var end := Execute(p, failing + [AppEnds, Resume, FinalFlushed(false)] + [Complete]);
            && end.Some? && end.value.wire == [Headers(status, []), Finish] && end.value.log == [status]
  {
    var failing := [SendStart(status), SendBody(chunk, true), HeadersFailed];
    HeadersFailOnce(p, status, chunk);
    EmptyResponse(p, failing, status);
  }

  lemma EmptyResponse(p: Setup, run: seq<Action>, status: int)
    requires !p.debug && Execute(p, run) == Some(START.(status := status))
    ensures var end := Execute(p, run + [AppEnds, Resume, FinalFlushed(false)] + [Complete]);
            && end.Some? && end.value.wire == [Headers(status, []), Finish] && end.value.log == [status]
  {
    EmptyEnd(p, run, status);
    ExecuteMore(p, run + [AppEnds, Resume, FinalFlushed(false)], Complete);
    assert [Headers(status, [])] + [Finish] == [Headers(status, []), Finish];
  }

  lemma EmptyEnd(p: Setup, run: seq<Action>, status: int)
    requires !p.debug && Execute(p, run) == Some(START.(status := status))
    ensures var s := Execute(p, run + [AppEnds, Resume, FinalFlushed(false)]);
            && s.Some? && s.value.pc.Finishing? && s.value.status == status
            && s.value.wire == [Headers(status, [])] && s.value.log == []
  {
    ThreeMore(p, run, AppEnds, Resume, FinalFlushed(false));
    assert [] + [Headers(status, [])] == [Headers(status, [])];
  }

  lemma HeadersFailOnce(p: Setup, status: int, chunk: Bytes)
    requires !p.debug
    ensures Execute(p, [SendStart(status), SendBody(chunk, true), HeadersFailed]) == Some(START.(status := status))
  {
    var a := [SendStart(status), SendBody(chunk, true), HeadersFailed];
    ThreeMore(p, [], a[0], a[1], a[2]);
    assert [] + a == a;
    assert Init([] + [chunk]) == [];
    assert Init([] + [Headers(status, Visible(p, chunk))]) == [];
  }

  /** If that last header write raises too, the request ends there: nothing is finished or logged. */
  lemma FailedFinalHeaders(p: Setup, status: int)
    ensures var run := [Reject(status), Resume, FinalFailed];
            && Execute(p, run).Some? && Execute(p, run).value.pc.Dropped?
            && Execute(p, run).value.wire == [] && Execute(p, run).value.log == []
  {
    ThreeMore(p, [], Reject(status), Resume, FinalFailed);
    assert [] + [Reject(status), Resume, FinalFailed] == [Reject(status), Resume, FinalFailed];
  }
}
