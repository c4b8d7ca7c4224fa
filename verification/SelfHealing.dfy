/** Bytes and upstreams together: what a worker's replica becomes after a damaged stream and a
    repair round (frontik/process.py, frontik/service_discovery.py, frontik/server.py). */
module SelfHealing {
  import opened Common
  import F = Framing
  import L = Links
  import D = Discovery
  import R = Replication

  /** pickle.dumps and pickle.loads on lists of upstreams. */
  datatype Codec = Codec(dumps: R.Message -> Bytes, loads: Bytes -> Option<R.Message>)

  ghost predicate Faithful(c: Codec) {
    forall m :: c.loads(c.dumps(m)) == Some(m)
  }

  /** _worker_listener_handler on one payload; a payload that does not load is logged and skipped. */
  function HandleOne(c: Codec, replica: R.Upstreams, raw: Bytes): R.Upstreams {
    match c.loads(raw)
    case None => replica
    case Some(m) => R.Apply(replica, m)
  }

  function Handle(c: Codec, replica: R.Upstreams, raws: seq<Bytes>): R.Upstreams {
    if raws == [] then replica
    else HandleOne(c, Handle(c, replica, raws[..|raws| - 1]), raws[|raws| - 1])
  }

  /** The worker's replica once it has read everything its pipe accepted. */
  function ReplicaAfter(limit: nat, c: Codec, initial: R.Upstreams, stream: Bytes): R.Upstreams {
    Handle(c, initial, L.Heard(limit, stream).delivered)
  }

  /** The listener waits where two copies of a frame of f bytes reach it. */
  predicate WithinReach(limit: nat, rd: F.Reader, f: nat) {
    match rd.phase
    case Seek => |rd.buf| <= limit
    case Body(n) => f - limit <= n - |rd.buf| <= f
    case _ => false
  }

  lemma LastPayloadWins(
    c: Codec, initial: R.Upstreams, raws: seq<Bytes>, dump: R.Message, published: R.Upstreams, key: D.Name)
    requires Faithful(c) && R.IsDump(dump, published) && key in published
    requires raws != [] && raws[|raws| - 1] == c.dumps(dump)
    ensures var final := Handle(c, initial, raws);
            key in final && final[key] == published[key]
  {
    var before := Handle(c, initial, raws[..|raws| - 1]);
    assert HandleOne(c, before, raws[|raws| - 1]) == R.Apply(before, dump);
    R.ApplyConsistent(before, dump, published, key);
  }

  /** However the stream was damaged before, and whatever the damaged payload was taken for: if the
      round's copies are written in full and the listener is within reach, the worker ends up with
      the master's upstream for every name the master knows. */
  lemma WorkerHeals(
    limit: nat, c: Codec, initial: R.Upstreams, stream: Bytes,
    dump: R.Message, published: R.Upstreams, first: L.Io, second: L.Io, key: D.Name)
    requires Faithful(c) && R.IsDump(dump, published) && key in published
    requires F.Sendable(c.dumps(dump)) && F.Clean(c.dumps(dump))
    requires L.Feasible(first, c.dumps(dump)) && L.Feasible(second, c.dumps(dump))
    requires L.WrittenInFull(first) && L.WrittenInFull(second)
    requires WithinReach(limit, L.Heard(limit, stream).reader, |F.Frame(c.dumps(dump))|)
    ensures var final := ReplicaAfter(limit, c, initial, L.Repair(stream, c.dumps(dump), first, second));
            key in final && final[key] == published[key]
  {
    var raw := c.dumps(dump);
    var before := L.Heard(limit, stream);
    var after := L.Heard(limit, L.Repair(stream, raw, first, second)).delivered;
    L.RoundHeals(limit, stream, raw, first, second);
    EndsWithDump(limit, before.reader, raw, after[|before.delivered|..]);
    LastPayloadWins(c, initial, after, dump, published, key);
  }

  lemma EndsWithDump(limit: nat, rd: F.Reader, raw: Bytes, gained: seq<Bytes>)
    requires WithinReach(limit, rd, |F.Frame(raw)|) && L.Gains(limit, rd, raw, gained)
    ensures gained != [] && gained[|gained| - 1] == raw
  {
    if rd.phase.Body? {
      assert gained[1..] == [raw];
      assert gained[|gained| - 1] == gained[1..][0];
    }
  }

  /******* Whole histories *******/

  /** The master's upstreams and its side of the pipes. */
  datatype Master = Master(published: R.Upstreams, links: L.Links)

  /** An upstream rebuilt and sent to all; a round of the resend thread; a mark by the supervisor. */
  datatype Event =
    | Publish(key: D.Name, upstream: D.Upstream, pids: seq<L.Pid>, ios: L.Ios)
    | Round(dump: R.Message, clients: seq<L.Pid>, first: L.Ios, second: L.Ios)
    | RestartMark(pid: L.Pid)

  function Raw(c: Codec, e: Event): Bytes
    requires !e.RestartMark?
  {
    c.dumps(if e.Publish? then [(e.key, e.upstream)] else e.dump)
  }

  /** pids lists the pipes and clients the marks; the calls end in ways in which they can end. */
  ghost predicate Possible(c: Codec, m: Master, e: Event) {
    match e
    case Publish(key, upstream, pids, ios) =>
      && L.Distinct(pids) && (forall p :: p in pids <==> p in m.links.pipes)
      && L.AllFeasible(m.links.pipes.Keys, ios, Raw(c, e))
    case Round(dump, clients, first, second) =>
      && R.IsDump(dump, m.published) && L.Distinct(clients) && (forall p :: p in clients <==> p in m.links.marks)
      && L.AllFeasible(m.links.pipes.Keys, first, Raw(c, e)) && L.AllFeasible(m.links.pipes.Keys, second, Raw(c, e))
    case RestartMark(_) => true
  }

  ghost function Next(c: Codec, m: Master, e: Event): Master
    requires Possible(c, m, e)
  {
    match e
    case Publish(key, upstream, pids, ios) =>
      Master(m.published[key := upstream], L.SendEach(m.links, pids, Raw(c, e), ios))
    case Round(_, clients, first, second) =>
      m.(links := L.ServeEach(m.links.(marks := {}), clients, Raw(c, e), first, second))
    case RestartMark(pid) => m.(links := m.links.(marks := m.links.marks + {pid}, notified := true))
  }

  ghost function History(c: Codec, m: Master, events: seq<Event>): Option<Master> {
    if events == [] then Some(m)
    else
      var n := |events| - 1;
      match History(c, m, events[..n])
      case None => None
      case Some(before) => if Possible(c, before, events[n]) then Some(Next(c, before, events[n])) else None
  }

  /** The header got out, and the payload did or the pipe was full. */
  predicate AtMostCut(io: L.Io) {
    io.header.Done? && !io.data.Failed?
  }

  /** Towards pid: no write fails or blocks at the header; payloads can be framed; and a round that is
      written in full meets the listener within reach. */
  predicate Benign(limit: nat, c: Codec, m: Master, e: Event, pid: L.Pid)
    requires pid in m.links.pipes
    requires e.Publish? ==> pid in e.ios
    requires e.Round? ==> pid in e.first && pid in e.second
  {
    match e
    case Publish(_, _, _, ios) => AtMostCut(ios[pid]) && F.Sendable(Raw(c, e))
    case Round(_, clients, first, second) =>
      pid in clients ==>
        && AtMostCut(first[pid]) && AtMostCut(second[pid]) && F.Sendable(Raw(c, e)) && F.Clean(Raw(c, e))
        && (first[pid].data.Done? && second[pid].data.Done? ==>
              WithinReach(limit, L.Heard(limit, m.links.pipes[pid]).reader, |F.Frame(Raw(c, e))|))
    case RestartMark(_) => true
  }

  ghost predicate BenignAll(limit: nat, c: Codec, m: Master, events: seq<Event>, pid: L.Pid) {
    events == [] ||
    (var n := |events| - 1;
     BenignAll(limit, c, m, events[..n], pid) &&
     match History(c, m, events[..n])
     case None => true
     case Some(before) =>
       pid in before.links.pipes && Possible(c, before, events[n]) ==> Benign(limit, c, before, events[n], pid))
  }

  ghost predicate Agrees(replica: R.Upstreams, published: R.Upstreams) {
    forall key | key in published :: key in replica && replica[key] == published[key]
  }

  /** Between frames with nothing left over, and up to date with everything the master knows. */
  ghost predicate UpToDate(limit: nat, c: Codec, initial: R.Upstreams, stream: Bytes, published: R.Upstreams) {
    && L.Heard(limit, stream).reader == F.Reader(F.Seek, [])
    && Agrees(ReplicaAfter(limit, c, initial, stream), published)
  }

  ghost predicate MarkedOrUpToDate(limit: nat, c: Codec, initial: R.Upstreams, m: Master, pid: L.Pid) {
    && pid in m.links.pipes
    && (pid in m.links.marks || UpToDate(limit, c, initial, m.links.pipes[pid], m.published))
  }

  /** A complete frame for a listener between frames. */
  lemma HearsFrame(limit: nat, stream: Bytes, raw: Bytes)
    requires F.Sendable(raw) && L.Heard(limit, stream).reader == F.Reader(F.Seek, [])
    ensures L.Heard(limit, stream + F.Frame(raw)) ==
            F.Outcome(F.Reader(F.Seek, []), L.Heard(limit, stream).delivered + [raw])
  {
    L.HeardAppend(limit, stream, F.Frame(raw));
    F.RoundTrip(limit, [raw]);
    assert F.Stream([raw]) == F.Frame(raw);
    assert [] + F.Frame(raw) == F.Frame(raw);
  }

  lemma HandleLast(c: Codec, initial: R.Upstreams, raws: seq<Bytes>, raw: Bytes)
    ensures Handle(c, initial, raws + [raw]) == HandleOne(c, Handle(c, initial, raws), raw)
  {
    assert (raws + [raw])[..|raws|] == raws;
  }

  lemma UpdateArrives(
    limit: nat, c: Codec, initial: R.Upstreams, stream: Bytes, published: R.Upstreams,
    key: D.Name, upstream: D.Upstream)
    requires Faithful(c) && UpToDate(limit, c, initial, stream, published)
    requires F.Sendable(c.dumps([(key, upstream)]))
    ensures UpToDate(limit, c, initial, stream + F.Frame(c.dumps([(key, upstream)])), published[key := upstream])
  {
    var raw := c.dumps([(key, upstream)]);
    HearsFrame(limit, stream, raw);
    HandleLast(c, initial, L.Heard(limit, stream).delivered, raw);
    R.ApplyOne(ReplicaAfter(limit, c, initial, stream), (key, upstream));
  }

  lemma TwoCopiesLeaveNothing(limit: nat, rd: F.Reader, raw: Bytes)
    requires F.Sendable(raw) && F.Clean(raw) && F.Step(limit, rd).Wait?
    requires WithinReach(limit, rd, |F.Frame(raw)|)
    ensures F.Run(limit, F.Feed(rd, F.Frame(raw) + F.Frame(raw))).reader == F.Reader(F.Seek, [])
  {
    match rd.phase
    case Seek => L.TwoCopiesAfterJunk(limit, rd.buf, raw);
    case Body(n) => F.SecondCopyArrives(limit, n, rd.buf, raw);
  }

  lemma RoundArrives(
    limit: nat, c: Codec, initial: R.Upstreams, stream: Bytes,
    dump: R.Message, published: R.Upstreams, first: L.Io, second: L.Io)
    requires Faithful(c) && R.IsDump(dump, published)
    requires F.Sendable(c.dumps(dump)) && F.Clean(c.dumps(dump))
    requires L.Feasible(first, c.dumps(dump)) && L.Feasible(second, c.dumps(dump))
    requires L.WrittenInFull(first) && L.WrittenInFull(second)
    requires WithinReach(limit, L.Heard(limit, stream).reader, |F.Frame(c.dumps(dump))|)
    ensures UpToDate(limit, c, initial, L.Repair(stream, c.dumps(dump), first, second), published)
  {
    var raw := c.dumps(dump);
    var twice := F.Frame(raw) + F.Frame(raw);
    assert L.Repair(stream, raw, first, second) == stream + twice;
    L.HeardAppend(limit, stream, twice);
    TwoCopiesLeaveNothing(limit, L.Heard(limit, stream).reader, raw);
    forall key | key in published
      ensures var final := ReplicaAfter(limit, c, initial, L.Repair(stream, raw, first, second));
              key in final && final[key] == published[key]
    {
      WorkerHeals(limit, c, initial, stream, dump, published, first, second, key);
    }
  }

  lemma PublishKeeps(limit: nat, c: Codec, initial: R.Upstreams, m: Master, e: Event, pid: L.Pid)
    requires Faithful(c) && e.Publish? && Possible(c, m, e) && MarkedOrUpToDate(limit, c, initial, m, pid)
    requires Benign(limit, c, m, e, pid)
    ensures MarkedOrUpToDate(limit, c, initial, Next(c, m, e), pid)
  {
    L.SendEachEffect(m.links, e.pids, Raw(c, e), e.ios, pid);
    if pid !in m.links.marks && e.ios[pid].data.Done? {
      UpdateArrives(limit, c, initial, m.links.pipes[pid], m.published, e.key, e.upstream);
    }
  }

  lemma RoundKeeps(limit: nat, c: Codec, initial: R.Upstreams, m: Master, e: Event, pid: L.Pid)
    requires Faithful(c) && e.Round? && Possible(c, m, e) && MarkedOrUpToDate(limit, c, initial, m, pid)
    requires Benign(limit, c, m, e, pid)
    ensures MarkedOrUpToDate(limit, c, initial, Next(c, m, e), pid)
  {
    L.RoundEffect(m.links.(marks := {}), e.clients, Raw(c, e), e.first, e.second, pid);
    if pid in e.clients && e.first[pid].data.Done? && e.second[pid].data.Done? {
      RoundArrives(limit, c, initial, m.links.pipes[pid], e.dump, m.published, e.first[pid], e.second[pid]);
    }
  }

  /** Over any history of updates, restart marks and repair rounds, with pipes that block at any byte
      of any payload: a worker whose headers get out and whose rounds meet it within reach is marked,
      or it is between frames and its replica has the master's upstream for every name the master
      knows. Every damaged stream is marked, however many updates follow before the round. */
  lemma {:induction false} MarkedUntilUpToDate(
    limit: nat, c: Codec, initial: R.Upstreams, m: Master, events: seq<Event>, pid: L.Pid)
    requires Faithful(c) && MarkedOrUpToDate(limit, c, initial, m, pid)
    requires History(c, m, events).Some? && BenignAll(limit, c, m, events, pid)
    ensures MarkedOrUpToDate(limit, c, initial, History(c, m, events).value, pid)
  {
    if events != [] {
      var n := |events| - 1;
      MarkedUntilUpToDate(limit, c, initial, m, events[..n], pid);
      var before := History(c, m, events[..n]).value;
      match events[n] {
        case Publish(_, _, _, _) => PublishKeeps(limit, c, initial, before, events[n], pid);
        case Round(_, _, _, _) => RoundKeeps(limit, c, initial, before, events[n], pid);
        case RestartMark(_) =>
      }
    }
  }

  /** A forked worker starts up to date. */
  lemma ForkedIsUpToDate(limit: nat, c: Codec, published: R.Upstreams)
    ensures UpToDate(limit, c, published, [], published)
  {
    F.RoundTrip(limit, []);
    assert F.Stream([]) == [];
  }

  lemma CutHeaderWaits(limit: nat, n: nat, k: nat)
    requires k < L.HEADER_LEN
    ensures var out := F.Run(limit, F.Reader(F.Seek, F.Header(n)[..k]));
            out.delivered == [] && (out.reader == F.Reader(F.Seek, []) <==> k == 0)
  {
    var cut := F.Header(n)[..k];
    if k < F.MAGIC_LEN {
      F.ReadPastJunk(limit, cut, []);
      assert cut + F.Stream([]) == cut;
    } else {
      var field := F.Pack(n, F.SIZE_LEN)[..k - F.MAGIC_LEN];
      assert cut == F.MAGIC + field;
      F.EnterSize(limit, field);
      F.RunWaits(limit, F.Reader(F.Size, field));
    }
  }

  lemma CutHeaderHeard(limit: nat, stream: Bytes, n: nat, k: nat)
    requires k < L.HEADER_LEN && L.Heard(limit, stream).reader == F.Reader(F.Seek, [])
    ensures var out := L.Heard(limit, stream + F.Header(n)[..k]);
            && out.delivered == L.Heard(limit, stream).delivered
            && (out.reader == F.Reader(F.Seek, []) <==> k == 0)
  {
    var cut := F.Header(n)[..k];
    L.HeardAppend(limit, stream, cut);
    assert [] + cut == cut;
    CutHeaderWaits(limit, n, k);
    assert L.Heard(limit, stream).delivered + [] == L.Heard(limit, stream).delivered;
  }

  lemma AgreesAfterUpdate(replica: R.Upstreams, published: R.Upstreams, key: D.Name, upstream: D.Upstream)
    requires Agrees(replica, published)
    ensures Agrees(replica, published[key := upstream]) <==> key in replica && replica[key] == upstream
  {
    var next := published[key := upstream];
    assert key in next && next[key] == upstream;
  }

  /** The condition on headers cannot be dropped: an update whose header is blocked leaves no mark, and
      the worker is still up to date only if no byte got out and it held that very state already. */
  lemma BlockedHeaderGoesUnseen(limit: nat, c: Codec, initial: R.Upstreams, m: Master, e: Event, pid: L.Pid)
    requires e.Publish? && Possible(c, m, e) && pid in m.links.pipes && pid !in m.links.marks
    requires UpToDate(limit, c, initial, m.links.pipes[pid], m.published) && e.ios[pid].header.Blocked?
    ensures MarkedOrUpToDate(limit, c, initial, Next(c, m, e), pid) <==>
            e.ios[pid].header.accepted == 0 &&
            var replica := ReplicaAfter(limit, c, initial, m.links.pipes[pid]);
            e.key in replica && replica[e.key] == e.upstream
  {
    var stream, raw := m.links.pipes[pid], Raw(c, e);
    var k := e.ios[pid].header.accepted;
    L.SendEachEffect(m.links, e.pids, raw, e.ios, pid);
    assert L.Accepted(raw, e.ios[pid]) == F.Header(|raw|)[..k];
    CutHeaderHeard(limit, stream, |raw|, k);
    AgreesAfterUpdate(ReplicaAfter(limit, c, initial, stream), m.published, e.key, e.upstream);
  }

  /** Who is marked after an event: by a publication, those whose payload or flush blocked; by a round,
      of those it served only the ones that blocked again; by the supervisor, the restarted worker. */
  lemma MarksChange(c: Codec, m: Master, e: Event, pid: L.Pid)
    requires Possible(c, m, e) && pid in m.links.pipes
    ensures pid in Next(c, m, e).links.marks <==>
            match e
            case Publish(_, _, _, ios) =>
              pid in m.links.marks || L.BlockedAt(ios[pid], 1) || L.BlockedAt(ios[pid], 2)
            case Round(_, _, first, second) =>
              pid in m.links.marks && (|| L.BlockedAt(first[pid], 1) || L.BlockedAt(first[pid], 2)
                                       || L.BlockedAt(second[pid], 1) || L.BlockedAt(second[pid], 2))
            case RestartMark(p) => pid in m.links.marks || p == pid
  {
    match e
    case Publish(_, _, pids, ios) =>
      L.SendEachEffect(m.links, pids, Raw(c, e), ios, pid);
      L.MarksMeans(ios[pid]);
    case Round(_, clients, first, second) =>
      L.RoundEffect(m.links.(marks := {}), clients, Raw(c, e), first, second, pid);
      L.MarksMeans(first[pid]);
      L.MarksMeans(second[pid]);
    case RestartMark(_) =>
  }

  /******* What handling amounts to *******/

  /** All upstreams of the payloads that load, in order. */
  function Loaded(c: Codec, raws: seq<Bytes>): R.Message {
    if raws == [] then []
    else
      var last := c.loads(raws[|raws| - 1]);
      Loaded(c, raws[..|raws| - 1]) + (if last.Some? then last.value else [])
  }

  lemma {:induction false} ApplyConcat(replica: R.Upstreams, a: R.Message, b: R.Message)
    ensures R.Apply(replica, a + b) == R.Apply(R.Apply(replica, a), b)
    decreases |b|
  {
    if b == [] {
      assert a + b == a;
    } else {
      var n := |b| - 1;
      ApplyConcat(replica, a, b[..n]);
      assert (a + b)[..|a + b| - 1] == a + b[..n] && (a + b)[|a + b| - 1] == b[n];
    }
  }

  /** A worker that has handled any payloads, damaged ones among them, holds what one message with all
      upstreams of the ones that load would give: the others change nothing. */
  lemma {:induction false} HandleIsApply(c: Codec, initial: R.Upstreams, raws: seq<Bytes>)
    ensures Handle(c, initial, raws) == R.Apply(initial, Loaded(c, raws))
  {
    if raws != [] {
      var init, last := raws[..|raws| - 1], c.loads(raws[|raws| - 1]);
      HandleIsApply(c, initial, init);
      ApplyConcat(initial, Loaded(c, init), if last.Some? then last.value else []);
    }
  }
}
