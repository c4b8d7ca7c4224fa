/** The request body on its way to the application: Tornado's delegate puts chunks into a bounded
    queue, the application takes them with receive (frontik/tornado_connection_handler.py,
    frontik/handler_asgi.py, frontik/tornado_request.py). */
module Upload {
  import opened Common

  const CAPACITY := 100000

  datatype Item = Data(bytes: Bytes) | Eof

  /** What receive returns. */
  datatype Message = Request(body: Bytes, more: bool) | Disconnect

  /** pending: a data_received task whose put has not run yet; Tornado awaits it before it delivers
      more. uploaded: chunks that arrived; seen: messages the application received. */
  datatype State = State(
    pending: Option<Bytes>,
    queue: seq<Item>,
    finished: bool,
    canceled: bool,
    uploaded: seq<Bytes>,
    seen: seq<Message>)

  datatype Action =
    | Arrive(chunk: Bytes)
    | Put
    | FinishUpload
    | LoseConnection   // delegate.on_connection_close
    | CloseCallback    // _on_connection_close: cancels without touching the queue
    | Receive

  const START := State(None, [], false, false, [], [])

  /** put_nowait(EOF): raises QueueFull, and puts nothing, when the queue is full. */
  function PutEof(queue: seq<Item>): seq<Item> {
    if |queue| < CAPACITY then queue + [Eof] else queue
  }

  function Answer(s: State, item: Item): Message {
    if s.canceled then Disconnect
    else
      match item
      case Data(bytes) => Request(bytes, true)
      case Eof => if s.finished then Request([], false) else Request([], true)
  }

  function Next(s: State, a: Action): Option<State> {
    match a
    case Arrive(chunk) =>
      if s.pending.Some? || s.finished then None
      else Some(s.(pending := Some(chunk), uploaded := s.uploaded + [chunk]))
    case Put =>
      if s.pending.None? || |s.queue| >= CAPACITY then None
      else Some(s.(pending := None, queue := s.queue + [Data(s.pending.value)]))
    case FinishUpload =>
      if s.pending.Some? || s.finished then None
      else Some(s.(finished := true, queue := PutEof(s.queue)))
    case LoseConnection => Some(s.(finished := true, canceled := true, queue := PutEof(s.queue)))
    case CloseCallback => Some(s.(canceled := true))
    case Receive =>
      if s.queue == [] then None
      else Some(s.(queue := s.queue[1..], seen := s.seen + [Answer(s, s.queue[0])]))
  }

  function Execute(run: seq<Action>): Option<State> {
    if run == [] then Some(START)
    else
      match Execute(run[..|run| - 1])
      case None => None
      case Some(s) => Next(s, run[|run| - 1])
  }

  /******* The code *******/

  class UploadQueue {
    var pending: Option<Bytes>
    var bodyChunks: seq<Item>
    var finished: bool
    var canceled: bool
    var uploaded: seq<Bytes>
    var seen: seq<Message>

    function View(): State
      reads this
    {
      State(pending, bodyChunks, finished, canceled, uploaded, seen)
    }

    constructor ()
      ensures View() == START
    {
      pending, bodyChunks, finished, canceled, uploaded, seen := None, [], false, false, [], [];
    }

    method Finish()
      requires pending.None? && !finished
      modifies this
      ensures Some(View()) == Next(old(View()), FinishUpload)
    {
      finished := true;
      if |bodyChunks| < CAPACITY {
        bodyChunks := bodyChunks + [Eof];
      }
    }

    method OnConnectionClose()
      modifies this
      ensures Some(View()) == Next(old(View()), LoseConnection)
    {
      finished := true;
      canceled := true;
      if |bodyChunks| < CAPACITY {
        bodyChunks := bodyChunks + [Eof];
      }
    }

    method Receive() returns (message: Message)
      requires bodyChunks != []
      modifies this
      ensures Some(View()) == Next(old(View()), Action.Receive)
      ensures message == seen[|seen| - 1]
    {
      var chunk := bodyChunks[0];
      bodyChunks := bodyChunks[1..];
      if canceled {
        message := Disconnect;
      } else if finished && chunk.Eof? {
        message := Request([], false);
      } else {
        message := Request(if chunk.Data? then chunk.bytes else [], !finished || !chunk.Eof?);
      }
      seen := seen + [message];
    }
  }

  /******* What the application sees *******/

  /** The bodies of the messages that announce more, in order. */
  function Bodies(seen: seq<Message>): seq<Bytes> {
    if seen == [] then []
    else
      var last := seen[|seen| - 1];
      Bodies(seen[..|seen| - 1]) + (if last.Request? && last.more then [last.body] else [])
  }

  function BytesOf(item: Item): seq<Bytes> {
    if item.Data? then [item.bytes] else []
  }

  function Queued(queue: seq<Item>): seq<Bytes> {
    if queue == [] then [] else BytesOf(queue[0]) + Queued(queue[1..])
  }

  function Waiting(pending: Option<Bytes>): seq<Bytes> {
    if pending.Some? then [pending.value] else []
  }

  /** Nothing lost, nothing duplicated, nothing reordered, until the request is cancelled. */
  ghost predicate Conserved(s: State) {
    s.uploaded == Bodies(s.seen) + Queued(s.queue) + Waiting(s.pending)
  }

  /** The end marker is last, and present only once the upload is complete. */
  predicate EofIsLast(s: State) {
    forall i | 0 <= i < |s.queue| && s.queue[i].Eof? :: i == |s.queue| - 1 && s.finished && s.pending.None?
  }

  predicate Ended(seen: seq<Message>) {
    exists i | 0 <= i < |seen| :: seen[i].Request? && !seen[i].more
  }

  ghost predicate Inv(s: State) {
    && (!s.canceled ==> Conserved(s) && EofIsLast(s))
    && Bodies(s.seen) <= s.uploaded
    && (Ended(s.seen) ==> s.finished && Bodies(s.seen) == s.uploaded)
  }

  lemma {:induction false} QueuedLast(queue: seq<Item>, item: Item)
    ensures Queued(queue + [item]) == Queued(queue) + BytesOf(item)
  {
    if queue == [] {
      assert [] + [item] == [item] && [item][1..] == [];
      assert BytesOf(item) + [] == [] + BytesOf(item);
    } else {
      QueuedLast(queue[1..], item);
      assert (queue + [item])[1..] == queue[1..] + [item];
      Associates(BytesOf(queue[0]), Queued(queue[1..]), BytesOf(item));
    }
  }

  lemma BodiesLast(seen: seq<Message>, m: Message)
    ensures Bodies(seen + [m]) == Bodies(seen) + (if m.Request? && m.more then [m.body] else [])
    ensures Ended(seen + [m]) <==> Ended(seen) || (m.Request? && !m.more)
  {
    assert (seen + [m])[..|seen|] == seen;
    assert (seen + [m])[|seen|] == m;
    assert forall i | 0 <= i < |seen| :: (seen + [m])[i] == seen[i];
  }

  lemma ReceiveKeepsInv(s: State)
    requires Inv(s) && Next(s, Receive).Some?
    ensures Inv(Next(s, Receive).value)
  {
    var item := s.queue[0];
    var m := Answer(s, item);
    var t := Next(s, Receive).value;
    BodiesLast(s.seen, m);
    if s.canceled {
      assert Bodies(s.seen) + [] == Bodies(s.seen);
    } else if item.Data? {
      assert Bodies(t.seen) + Queued(t.queue) == Bodies(s.seen) + Queued(s.queue);
      assert Bodies(t.seen) + (Queued(t.queue) + Waiting(t.pending)) == t.uploaded;
    } else {
      assert s.queue[1..] == [];
      assert Bodies(t.seen) == t.uploaded;
    }
  }

  lemma ProducerKeepsInv(s: State, a: Action)
    requires Inv(s) && !a.Receive? && Next(s, a).Some?
    ensures Inv(Next(s, a).value)
  {
    var t := Next(s, a).value;
    match a {
      case Arrive(chunk) =>
        assert Waiting(t.pending) == [chunk] && Waiting(s.pending) == [];
        assert !s.canceled ==> Bodies(s.seen) + Queued(s.queue) + [] == s.uploaded;
      case Put =>
        QueuedLast(s.queue, Data(s.pending.value));
        assert Bodies(s.seen) + (Queued(s.queue) + Waiting(s.pending)) ==
               Bodies(s.seen) + Queued(s.queue) + Waiting(s.pending);
        assert Bodies(t.seen) + Queued(t.queue) + [] == Bodies(t.seen) + Queued(t.queue);
      case FinishUpload =>
        QueuedLast(s.queue, Eof);
        assert Queued(s.queue) + [] == Queued(s.queue);
      case _ =>
    }
  }

  lemma {:induction false} RunKeepsInv(run: seq<Action>)
    requires Execute(run).Some?
    ensures Inv(Execute(run).value)
  {
    if run != [] {
      var n := |run| - 1;
      RunKeepsInv(run[..n]);
      var s := Execute(run[..n]).value;
      if run[n].Receive? {
        ReceiveKeepsInv(s);
      } else {
        ProducerKeepsInv(s, run[n]);
      }
    }
  }

  /** The chunks that arrived, and how many messages were received, told from the run. */
  function Arrived(run: seq<Action>): seq<Bytes> {
    if run == [] then []
    else
      var a := run[|run| - 1];
      Arrived(run[..|run| - 1]) + (if a.Arrive? then [a.chunk] else [])
  }

  function Received(run: seq<Action>): nat {
    if run == [] then 0 else Received(run[..|run| - 1]) + (if run[|run| - 1].Receive? then 1 else 0)
  }

  lemma UploadedStep(run: seq<Action>, s: State, a: Action)
    requires s.uploaded == Arrived(run) && |s.seen| == Received(run) && Next(s, a).Some?
    ensures Next(s, a).value.uploaded == Arrived(run + [a]) && |Next(s, a).value.seen| == Received(run + [a])
  {
    assert (run + [a])[..|run|] == run;
    assert s.uploaded + [] == s.uploaded;
  }

  lemma {:induction false} UploadedIsArrived(run: seq<Action>)
    requires Execute(run).Some?
    ensures Execute(run).value.uploaded == Arrived(run) && |Execute(run).value.seen| == Received(run)
  {
    if run != [] {
      var n := |run| - 1;
      UploadedIsArrived(run[..n]);
      UploadedStep(run[..n], Execute(run[..n]).value, run[n]);
      assert run == run[..n] + [run[n]];
    }
  }

  /** In every interleaving of arrival, end of upload, disconnects and receive: the application has
      seen an in-order prefix of the uploaded chunks; it is told that there is no more only after all
      of them; and until the request is cancelled nothing is lost. */
  lemma {:induction false} UploadStreaming(run: seq<Action>)
    requires Execute(run).Some?
    ensures var s := Execute(run).value;
            && |s.seen| == Received(run) && Bodies(s.seen) <= Arrived(run)
            && (Ended(s.seen) ==> Bodies(s.seen) == Arrived(run) && s.finished)
            && (!s.canceled ==> Arrived(run) == Bodies(s.seen) + Queued(s.queue) + Waiting(s.pending))
  {
    RunKeepsInv(run);
    UploadedIsArrived(run);
  }

  /******* After a cancellation, and after the end of the upload *******/

  lemma ExecuteMore(a: seq<Action>, b: seq<Action>)
    requires b != [] && Execute(a + b).Some?
    ensures Execute(a + b[..|b| - 1]).Some?
    ensures Next(Execute(a + b[..|b| - 1]).value, b[|b| - 1]) == Execute(a + b)
  {
    assert (a + b)[..|a + b| - 1] == a + b[..|b| - 1];
  }

  /** Once the request is cancelled, whatever happens next, every further message is a disconnect. */
  lemma {:induction false} CancelledOnlyDisconnects(a: seq<Action>, b: seq<Action>)
    requires Execute(a).Some? && Execute(a).value.canceled && Execute(a + b).Some?
    ensures var s, end := Execute(a).value, Execute(a + b).value;
            && end.canceled && s.seen <= end.seen
            && forall i | |s.seen| <= i < |end.seen| :: end.seen[i] == Disconnect
    decreases |b|
  {
    if b == [] {
      assert a + b == a;
    } else {
      ExecuteMore(a, b);
      CancelledOnlyDisconnects(a, b[..|b| - 1]);
    }
  }

  /** Losing the connection leaves something in the queue, so a waiting receive returns, with a
      disconnect; closing by the callback alone does not. */
  lemma LossWakesReceiver(a: seq<Action>)
    requires Execute(a).Some?
    ensures var end := Execute(a + [LoseConnection] + [Receive]);
            && end.Some? && end.value.seen == Execute(a).value.seen + [Disconnect]
            && end.value.finished && forall chunk :: Next(end.value, Arrive(chunk)).None?
    ensures var end := Execute(a + [CloseCallback] + [Receive]);
            && (end.Some? <==> Execute(a).value.queue != [])
            && (end.Some? ==> end.value.seen == Execute(a).value.seen + [Disconnect])
  {
    assert (a + [LoseConnection])[..|a|] == a && (a + [CloseCallback])[..|a|] == a;
    assert (a + [LoseConnection] + [Receive])[..|a| + 1] == a + [LoseConnection];
    assert (a + [CloseCallback] + [Receive])[..|a| + 1] == a + [CloseCallback];
  }

  /** What draining a queue delivers once the upload is finished. */
  function Delivered(queue: seq<Item>): seq<Message> {
    if queue == [] then []
    else [if queue[0].Data? then Request(queue[0].bytes, true) else Request([], false)] + Delivered(queue[1..])
  }

  lemma {:induction false} DeliveredLast(queue: seq<Item>, item: Item)
    ensures Delivered(queue + [item]) == Delivered(queue) + Delivered([item])
  {
    if queue == [] {
      assert queue + [item] == [item];
    } else {
      DeliveredLast(queue[1..], item);
      assert (queue + [item])[1..] == queue[1..] + [item];
    }
  }

  lemma {:induction false} DataDelivered(queue: seq<Item>)
    requires forall i | 0 <= i < |queue| :: queue[i].Data?
    ensures forall i | 0 <= i < |Delivered(queue)| :: Delivered(queue)[i].Request? && Delivered(queue)[i].more
  {
    if queue != [] {
      DataDelivered(queue[1..]);
    }
  }

  predicate Draining(s: State) {
    s.finished && s.pending.None? && !s.canceled
  }

  lemma DrainStep(s: State, a: Action)
    requires Draining(s) && Next(s, a).Some? && !Next(s, a).value.canceled
    ensures var t := Next(s, a).value;
            Draining(t) && t.seen + Delivered(t.queue) == s.seen + Delivered(s.queue)
  {
    assert a.Receive?;
    var m := Answer(s, s.queue[0]);
    assert Delivered(s.queue) == [m] + Delivered(s.queue[1..]);
    assert s.seen + [m] + Delivered(s.queue[1..]) == s.seen + ([m] + Delivered(s.queue[1..]));
  }

  lemma StaysCancelled(s: State, a: Action)
    requires Next(s, a).Some? && s.canceled
    ensures Next(s, a).value.canceled
  {
  }

  lemma {:induction false} DrainRun(a: seq<Action>, b: seq<Action>)
    requires Execute(a).Some? && Draining(Execute(a).value)
    requires Execute(a + b).Some? && !Execute(a + b).value.canceled
    ensures var s, end := Execute(a).value, Execute(a + b).value;
            Draining(end) && end.seen + Delivered(end.queue) == s.seen + Delivered(s.queue)
    decreases |b|
  {
    if b == [] {
      assert a + b == a;
    } else {
      ExecuteMore(a, b);
      var t := Execute(a + b[..|b| - 1]).value;
      if t.canceled {
        StaysCancelled(t, b[|b| - 1]);
      }
      DrainRun(a, b[..|b| - 1]);
      DrainStep(t, b[|b| - 1]);
    }
  }

  predicate SaysNoMore(m: Message) {
    m.Request? && !m.more
  }

  /** Exactly one message says that there is no more, and it is the last. */
  predicate EndsOnce(seen: seq<Message>) {
    seen != [] && forall i | 0 <= i < |seen| :: SaysNoMore(seen[i]) <==> i == |seen| - 1
  }

  lemma EndsOnceOrNever(seen: seq<Message>, more: seq<Message>, room: bool)
    requires !Ended(seen) && forall i | 0 <= i < |more| :: more[i].Request? && more[i].more
    ensures var all := seen + more + (if room then [Request([], false)] else []);
            (Ended(all) <==> room) && (room ==> EndsOnce(all))
  {
    var said := seen + more;
    forall i | 0 <= i < |said| ensures !SaysNoMore(said[i]) {
      assert said[i] == if i < |seen| then seen[i] else more[i - |seen|];
    }
    if room {
      var all := said + [Request([], false)];
      assert SaysNoMore(all[|said|]);
      assert forall i | 0 <= i < |said| :: all[i] == said[i];
    }
  }

  lemma FinishDelivers(s: State)
    requires Next(s, FinishUpload).Some?
    ensures var t := Next(s, FinishUpload).value;
            t.seen == s.seen
            && Delivered(t.queue) == Delivered(s.queue) + (if |s.queue| < CAPACITY then [Request([], false)] else [])
  {
    DeliveredLast(s.queue, Eof);
    assert [Eof][1..] == [];
    assert Delivered([Eof]) == [Request([], false)];
  }

  /** Everything that is seen between the end of the upload and an empty queue. */
  lemma AfterFinish(a: seq<Action>, b: seq<Action>)
    requires Execute(a).Some? && Next(Execute(a).value, FinishUpload).Some?
    requires Execute(a + [FinishUpload] + b).Some?
    requires var end := Execute(a + [FinishUpload] + b).value; !end.canceled && end.queue == []
    ensures var s, end := Execute(a).value, Execute(a + [FinishUpload] + b).value;
            end.seen == s.seen + Delivered(s.queue) + (if |s.queue| < CAPACITY then [Request([], false)] else [])
    ensures !Execute(a).value.canceled
  {
    var a' := a + [FinishUpload];
    assert a'[..|a|] == a;
    FinishDelivers(Execute(a).value);
    if Execute(a').value.canceled {
      CancelledOnlyDisconnects(a', b);
    }
    DrainRun(a', b);
    var s, end := Execute(a).value, Execute(a' + b).value;
    DeliveredNothing(end);
    Associates(s.seen, Delivered(s.queue), if |s.queue| < CAPACITY then [Request([], false)] else []);
  }

  lemma DeliveredNothing(s: State)
    ensures s.queue == [] ==> s.seen + Delivered(s.queue) == s.seen
  {
  }

  lemma Associates<T>(a: seq<T>, b: seq<T>, c: seq<T>)
    ensures a + (b + c) == a + b + c
  {
  }

  /** The upload ends, without a cancellation, after a; b is whatever follows until the queue is empty.
      If the queue had room for the end marker, the application gets the queued chunks and then
      exactly one message that there is no more; if it had not, it is never told. */
  lemma EndOfBody(a: seq<Action>, b: seq<Action>)
    requires Execute(a).Some? && Next(Execute(a).value, FinishUpload).Some?
    requires Execute(a + [FinishUpload] + b).Some?
    requires var end := Execute(a + [FinishUpload] + b).value; !end.canceled && end.queue == []
    ensures var s, end := Execute(a).value, Execute(a + [FinishUpload] + b).value;
            && end.seen == s.seen + Delivered(s.queue) + (if |s.queue| < CAPACITY then [Request([], false)] else [])
            && (Ended(end.seen) <==> |s.queue| < CAPACITY)
            && (|s.queue| < CAPACITY ==> EndsOnce(end.seen))
  {
    AfterFinish(a, b);
    RunKeepsInv(a);
    var s := Execute(a).value;
    DataDelivered(s.queue);
    EndsOnceOrNever(s.seen, Delivered(s.queue), |s.queue| < CAPACITY);
  }

  /******* A full queue *******/

  function Uploads(n: nat): seq<Action> {
    if n == 0 then [] else Uploads(n - 1) + [Arrive([])] + [Put]
  }

  function Empties(n: nat): seq<Bytes> {
    seq(n, i => [])
  }

  function EmptyChunks(n: nat): seq<Item> {
    seq(n, i => Data([]))
  }

  lemma Execute1(a: seq<Action>, x: Action)
    requires Execute(a).Some?
    ensures Execute(a + [x]) == Next(Execute(a).value, x)
  {
    assert (a + [x])[..|a|] == a;
  }

  function Filled(n: nat): State {
    State(None, EmptyChunks(n), false, false, Empties(n), [])
  }

  lemma OneMoreChunk(n: nat)
    requires n < CAPACITY
    ensures Next(Filled(n), Arrive([])).Some?
    ensures Next(Next(Filled(n), Arrive([])).value, Put) == Some(Filled(n + 1))
  {
    assert EmptyChunks(n + 1) == EmptyChunks(n) + [Data([])];
    assert Empties(n + 1) == Empties(n) + [[]];
  }

  lemma UploadOne(run: seq<Action>, n: nat)
    requires Execute(run) == Some(Filled(n)) && n < CAPACITY
    ensures Execute(run + [Arrive([])] + [Put]) == Some(Filled(n + 1))
  {
    OneMoreChunk(n);
    Execute1(run, Arrive([]));
    Execute1(run + [Arrive([])], Put);
  }

  lemma FillNothing()
    ensures Execute([]) == Some(Filled(0))
  {
    assert EmptyChunks(0) == [] && Empties(0) == [];
  }

  lemma FillOneMore(run: seq<Action>, n: nat)
    requires run == Uploads(n) && Execute(run) == Some(Filled(n)) && n < CAPACITY
    ensures Execute(Uploads(n + 1)) == Some(Filled(n + 1))
  {
    UploadOne(run, n);
  }

  lemma {:induction false} Fill(n: nat)
    requires n <= CAPACITY
    ensures Execute(Uploads(n)) == Some(Filled(n))
  {
    if n == 0 {
      FillNothing();
    } else {
      Fill(n - 1);
      FillOneMore(Uploads(n - 1), n - 1);
    }
  }

  function Receives(n: nat): seq<Action> {
    if n == 0 then [] else Receives(n - 1) + [Receive]
  }

  lemma ReceiveNext(a: seq<Action>, queue: seq<Item>, n: nat)
    requires Execute(a).Some? && Draining(Execute(a).value) && n < |queue| && Execute(a).value.queue == queue[n..]
    ensures Execute(a + [Receive]).Some?
    ensures var end := Execute(a + [Receive]).value; Draining(end) && end.queue == queue[n + 1..]
  {
    Execute1(a, Receive);
    assert queue[n..][1..] == queue[n + 1..];
  }

  lemma {:induction false} DrainAll(a: seq<Action>, n: nat)
    requires Execute(a).Some? && Draining(Execute(a).value) && n <= |Execute(a).value.queue|
    ensures Execute(a + Receives(n)).Some?
    ensures var end := Execute(a + Receives(n)).value; Draining(end) && end.queue == Execute(a).value.queue[n..]
  {
    if n == 0 {
      assert a + Receives(0) == a;
    } else {
      DrainAll(a, n - 1);
      ReceiveNext(a + Receives(n - 1), Execute(a).value.queue, n - 1);
      assert a + Receives(n) == a + Receives(n - 1) + [Receive];
    }
  }

  /** A run in which the end of the body is lost: as many chunks as the queue holds, the end of the
      upload, then the application reads everything. It is never told that there is no more. */
  lemma FullQueueSwallowsEnd()
    ensures var run := Uploads(CAPACITY) + [FinishUpload] + Receives(CAPACITY);
            && Execute(run).Some?
            && var end := Execute(run).value;
               end.finished && !end.canceled && end.queue == [] && Bodies(end.seen) == Arrived(run) && !Ended(end.seen)
  {
    var a, b := Uploads(CAPACITY), Receives(CAPACITY);
    Fill(CAPACITY);
    Execute1(a, FinishUpload);
    DrainAll(a + [FinishUpload], CAPACITY);
    EndOfBody(a, b);
    DrainedIsComplete(a + [FinishUpload] + b);
  }

  /** Told or not, an application that has drained the queue has seen every chunk. */
  lemma DrainedIsComplete(run: seq<Action>)
    requires Execute(run).Some?
    requires var end := Execute(run).value; !end.canceled && end.queue == [] && end.pending.None?
    ensures Bodies(Execute(run).value.seen) == Arrived(run)
  {
    RunKeepsInv(run);
    UploadedIsArrived(run);
    var bodies := Bodies(Execute(run).value.seen);
    assert bodies + [] + [] == bodies;
  }
}
