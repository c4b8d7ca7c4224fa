/** The master's side of the pipes: one update written to one worker, to all of them, and the
    repair round of the resend thread (frontik/process.py), with the bytes each pipe accepts. */
module Links {
  import opened Common
  import opened Framing

  type Pid = int

  /** How one call on a non-blocking buffered pipe ends: all bytes taken; BlockingIOError after a
      proper prefix was taken; any other exception. */
  datatype Call = Done | Blocked(accepted: nat) | Failed

  datatype Io = Io(header: Call, data: Call, flush: Call)

  const HEADER_LEN := MAGIC_LEN + SIZE_LEN

  predicate Feasible(io: Io, data: Bytes) {
    && (io.header.Blocked? ==> io.header.accepted < HEADER_LEN)
    && (io.data.Blocked? ==> io.data.accepted < |data|)
  }

  /** The bytes that reach the worker, now or when the buffer drains. A blocked flush loses none. */
  function Accepted(data: Bytes, io: Io): Bytes
    requires Feasible(io, data)
  {
    match io.header
    case Failed => []
    case Blocked(k) => Header(|data|)[..k]
    case Done =>
      Header(|data|) + (match io.data
                        case Done => data
                        case Blocked(k) => data[..k]
                        case Failed => [])
  }

  /** Only a BlockingIOError raised once the header is out marks the worker. */
  predicate Marks(io: Io) {
    io.header.Done? && (io.data.Blocked? || (io.data.Done? && io.flush.Blocked?))
  }

  predicate WrittenInFull(io: Io) {
    io.header.Done? && io.data.Done?
  }

  type Ios = map<Pid, Io>

  predicate AllFeasible(pids: set<Pid>, ios: Ios, data: Bytes) {
    forall pid | pid in pids :: pid in ios && Feasible(ios[pid], data)
  }

  /** Both copies of a round as one client's pipe takes them. */
  function Repair(stream: Bytes, dump: Bytes, first: Io, second: Io): Bytes
    requires Feasible(first, dump) && Feasible(second, dump)
  {
    stream + Accepted(dump, first) + Accepted(dump, second)
  }

  /** write_pipes with what each pipe has accepted so far, the keys of resend_dict, and whether
      the one-slot notification queue holds its token. */
  datatype Links = Links(pipes: map<Pid, Bytes>, marks: set<Pid>, notified: bool)

  function Send(l: Links, pid: Pid, data: Bytes, io: Io): Links
    requires pid in l.pipes && Feasible(io, data)
  {
    Links(l.pipes[pid := l.pipes[pid] + Accepted(data, io)],
          l.marks + (if Marks(io) then {pid} else {}),
          l.notified || Marks(io))
  }

  function SendEach(l: Links, pids: seq<Pid>, data: Bytes, ios: Ios): (r: Links)
    requires forall pid | pid in pids :: pid in l.pipes
    requires AllFeasible(l.pipes.Keys, ios, data)
    ensures r.pipes.Keys == l.pipes.Keys
    decreases |pids|
  {
    if pids == [] then l
    else
      var n := |pids| - 1;
      Send(SendEach(l, pids[..n], data, ios), pids[n], data, ios[pids[n]])
  }

  /** A client whose pipe is gone is skipped; any other gets the dump twice. */
  function Serve(l: Links, pid: Pid, dump: Bytes, first: Ios, second: Ios): (r: Links)
    requires AllFeasible(l.pipes.Keys, first, dump) && AllFeasible(l.pipes.Keys, second, dump)
    ensures r.pipes.Keys == l.pipes.Keys
  {
    if pid !in l.pipes then l
    else Send(Send(l, pid, dump, first[pid]), pid, dump, second[pid])
  }

  function ServeEach(l: Links, clients: seq<Pid>, dump: Bytes, first: Ios, second: Ios): (r: Links)
    requires AllFeasible(l.pipes.Keys, first, dump) && AllFeasible(l.pipes.Keys, second, dump)
    ensures r.pipes.Keys == l.pipes.Keys
    decreases |clients|
  {
    if clients == [] then l
    else
      var n := |clients| - 1;
      Serve(ServeEach(l, clients[..n], dump, first, second), clients[n], dump, first, second)
  }

  predicate Distinct(pids: seq<Pid>) {
    forall i, j | 0 <= i < j < |pids| :: pids[i] != pids[j]
  }

  /** An update to all, seen by any one worker: a listed pipe takes its own bytes once, any other
      pipe is unchanged, and the worker is newly marked exactly if it blocked after its header. */
  lemma {:induction false} SendEachEffect(l: Links, pids: seq<Pid>, data: Bytes, ios: Ios, pid: Pid)
    requires Distinct(pids) && forall p | p in pids :: p in l.pipes
    requires AllFeasible(l.pipes.Keys, ios, data)
    ensures var r := SendEach(l, pids, data, ios);
            && (pid in l.pipes ==>
                  r.pipes[pid] == if pid in pids then l.pipes[pid] + Accepted(data, ios[pid]) else l.pipes[pid])
            && (pid in r.marks <==> pid in l.marks || (pid in pids && Marks(ios[pid])))
    decreases |pids|
  {
    if pids != [] {
      var init, last := pids[..|pids| - 1], pids[|pids| - 1];
      SendEachEffect(l, init, data, ios, pid);
      assert pids == init + [last];
      assert last !in init;
    }
  }

  /** The notification queue gets its token exactly if somebody blocked after a header. */
  lemma {:induction false} SendEachNotifies(l: Links, pids: seq<Pid>, data: Bytes, ios: Ios)
    requires forall p | p in pids :: p in l.pipes
    requires AllFeasible(l.pipes.Keys, ios, data)
    ensures SendEach(l, pids, data, ios).notified <==>
            l.notified || exists p | p in pids :: Marks(ios[p])
    decreases |pids|
  {
    if pids != [] {
      var init, last := pids[..|pids| - 1], pids[|pids| - 1];
      SendEachNotifies(l, init, data, ios);
      assert pids == init + [last];
    }
  }

  /** A round, seen by any one worker: a client with a pipe takes two copies, any other pipe is
      unchanged, and the worker is newly marked exactly if it is such a client and blocked again
      after a header; then the token is there too. */
  lemma {:induction false} RoundEffect(l: Links, clients: seq<Pid>, dump: Bytes, first: Ios, second: Ios, pid: Pid)
    requires Distinct(clients)
    requires AllFeasible(l.pipes.Keys, first, dump) && AllFeasible(l.pipes.Keys, second, dump)
    ensures var r := ServeEach(l, clients, dump, first, second);
            && (pid in l.pipes ==>
                  r.pipes[pid] == if pid in clients then Repair(l.pipes[pid], dump, first[pid], second[pid])
                                  else l.pipes[pid])
            && (pid in r.marks <==>
                  pid in l.marks || (pid in clients && pid in l.pipes && (Marks(first[pid]) || Marks(second[pid]))))
            && (l.notified || (pid in r.marks && pid !in l.marks) ==> r.notified)
    decreases |clients|
  {
    if clients != [] {
      var n := |clients| - 1;
      RoundEffect(l, clients[..n], dump, first, second, pid);
      assert clients == clients[..n] + [clients[n]];
      assert clients[n] !in clients[..n];
    }
  }

  class WorkerLinks {
    var writePipes: map<Pid, Bytes>
    var resendDict: set<Pid>
    var notification: bool

    function View(): Links
      reads this
    {
      Links(writePipes, resendDict, notification)
    }

    constructor (pids: set<Pid>)
      ensures View() == Links(map pid | pid in pids :: [], {}, false)
    {
      writePipes := map pid | pid in pids :: [];
      resendDict, notification := {}, false;
    }

    method SendUpdate(pid: Pid, data: Bytes, io: Io)
      requires pid in writePipes && Feasible(io, data)
      modifies this
      ensures View() == Send(old(View()), pid, data, io)
    {
      var headerWritten := false;
      var blocked := false;
      var taken: Bytes := [];
      match io.header {
        case Failed =>
        case Blocked(k) =>
          taken, blocked := Header(|data|)[..k], true;
        case Done =>
          headerWritten := true;
          taken := Header(|data|);
          match io.data {
            case Failed =>
              assert taken + [] == taken;
            case Blocked(k) =>
              taken, blocked := taken + data[..k], true;
            case Done =>
              taken, blocked := taken + data, io.flush.Blocked?;
          }
      }
      writePipes := writePipes[pid := writePipes[pid] + taken];
      if blocked && headerWritten {
        resendDict := resendDict + {pid};
        notification := true;
      }
    }

    /** pids lists write_pipes in its own order. */
    method SendToAll(pids: seq<Pid>, data: Bytes, ios: Ios)
      requires forall pid :: pid in pids <==> pid in writePipes
      requires AllFeasible(writePipes.Keys, ios, data)
      modifies this
      ensures View() == SendEach(old(View()), pids, data, ios)
    {
      for i := 0 to |pids|
        invariant writePipes.Keys == old(writePipes.Keys)
        invariant View() == SendEach(old(View()), pids[..i], data, ios)
      {
        assert pids[..i + 1][..i] == pids[..i];
        SendUpdate(pids[i], data, ios[pids[i]]);
      }
      assert pids[..|pids|] == pids;
    }

    /** One pass of the resend thread under the lock; clients lists resend_dict in its own order. */
    method ResendRound(clients: seq<Pid>, dump: Bytes, first: Ios, second: Ios)
      requires forall pid :: pid in clients <==> pid in resendDict
      requires AllFeasible(writePipes.Keys, first, dump) && AllFeasible(writePipes.Keys, second, dump)
      modifies this
      ensures View() == ServeEach(old(View()).(marks := {}), clients, dump, first, second)
    {
      resendDict := {};
      ghost var cleared := View();
      for i := 0 to |clients|
        invariant writePipes.Keys == old(writePipes.Keys)
        invariant View() == ServeEach(cleared, clients[..i], dump, first, second)
      {
        var pid := clients[i];
        assert clients[..i + 1][..i] == clients[..i];
        if pid in writePipes {
          SendUpdate(pid, dump, first[pid]);
          SendUpdate(pid, dump, second[pid]);
        }
      }
      assert clients[..|clients|] == clients;
    }
  }

  /******* What the worker makes of it *******/

  /** Without other exceptions, an update is lost for a worker that nobody will retry exactly when
      the pipe was already full at the header. */
  lemma SilentLossIsABlockedHeader(data: Bytes, io: Io)
    requires Feasible(io, data) && !io.header.Failed? && !io.data.Failed?
    ensures Accepted(data, io) != Frame(data) && !Marks(io) <==> io.header.Blocked?
  {
    if io.header.Done? && io.data.Blocked? {
      assert |Accepted(data, io)| < |Frame(data)|;
    }
  }

  /** The three calls in order; one that does not return ends the update. */
  function Calls(io: Io): seq<Call> {
    [io.header, io.data, io.flush]
  }

  predicate EndsAt(io: Io, i: nat) {
    i < 3 && !Calls(io)[i].Done? && forall j | 0 <= j < i :: Calls(io)[j].Done?
  }

  predicate BlockedAt(io: Io, i: nat) {
    EndsAt(io, i) && Calls(io)[i].Blocked?
  }

  lemma MarksMeans(io: Io)
    ensures Marks(io) <==> BlockedAt(io, 1) || BlockedAt(io, 2)
  {
    var calls := Calls(io);
    assert calls[0] == io.header && calls[1] == io.data && calls[2] == io.flush;
  }

  /** An update to all: a worker is marked by it, and the token is there, exactly if the call that ended
      its update was a blocked one after the complete header, be it the payload or the flush. */
  lemma BlockedAfterHeaderIsMarked(l: Links, pids: seq<Pid>, data: Bytes, ios: Ios, pid: Pid)
    requires Distinct(pids) && (forall p | p in pids :: p in l.pipes) && AllFeasible(l.pipes.Keys, ios, data)
    requires pid in pids && pid !in l.marks
    ensures var r := SendEach(l, pids, data, ios);
            (pid in r.marks <==> BlockedAt(ios[pid], 1) || BlockedAt(ios[pid], 2))
            && (pid in r.marks ==> r.notified)
  {
    SendEachEffect(l, pids, data, ios, pid);
    SendEachNotifies(l, pids, data, ios);
    MarksMeans(ios[pid]);
  }

  /** The listener's view of everything a pipe accepted. */
  function Heard(limit: nat, stream: Bytes): Outcome {
    Run(limit, Reader(Seek, stream))
  }

  lemma HeardAppend(limit: nat, stream: Bytes, more: Bytes)
    ensures var before := Heard(limit, stream);
            var rest := Run(limit, Feed(before.reader, more));
            Heard(limit, stream + more) == Outcome(rest.reader, before.delivered + rest.delivered)
    ensures Step(limit, Heard(limit, stream).reader).Wait?
  {
    RunAppend(limit, Reader(Seek, stream), more);
    RunEndsWaiting(limit, Reader(Seek, stream));
  }

  lemma SplitsAt(a: seq<Bytes>, b: seq<Bytes>)
    ensures (a + b)[..|a|] == a && (a + b)[|a|..] == b
  {
  }

  /** What two copies of the dump give a listener that waits as rd. */
  predicate Gains(limit: nat, rd: Reader, dump: Bytes, gained: seq<Bytes>) {
    var f := |Frame(dump)|;
    match rd.phase
    case Seek => gained == if |rd.buf| <= limit then [dump, dump] else []
    case Body(n) =>
      var gap := n - |rd.buf|;
      if gap > 2 * f then gained == []
      else gained != [] && gained[1..] == if f - limit <= gap <= f then [dump] else []
    case Wedged => gained == []
    case Size => 2 * f < HUGE ==> gained == []
  }

  lemma CopiesReach(limit: nat, rd: Reader, dump: Bytes)
    requires Sendable(dump) && Clean(dump) && Step(limit, rd).Wait?
    ensures Gains(limit, rd, dump, Run(limit, Feed(rd, Frame(dump) + Frame(dump))).delivered)
  {
    var twice := Frame(dump) + Frame(dump);
    match rd.phase
    case Seek => TwoCopiesAfterJunk(limit, rd.buf, dump);
    case Body(n) =>
      if n - |rd.buf| <= 2 * |Frame(dump)| {
        SecondCopyArrives(limit, n, rd.buf, dump);
      } else {
        RunWaits(limit, Feed(rd, twice));
      }
    case Wedged => RunWaits(limit, rd);
    case Size =>
      TwoFrames(dump);
      if 2 * |Frame(dump)| < HUGE {
        DeafInSize(limit, rd.buf, [dump, dump]);
      }
  }

  lemma TwoFrames(dump: Bytes)
    ensures Stream([dump, dump]) == Frame(dump) + Frame(dump)
  {
    assert Stream([dump]) == Frame(dump);
    assert [dump, dump][1..] == [dump];
  }

  /** After any history at all, a round whose two copies are written in full: the worker keeps what it
      had and gets the dump exactly if it was waiting between frames within the search limit, or
      inside a cut frame whose gap one copy fills with a remainder within the limit. Inside a cut
      size field or stuck it gets nothing. */
  lemma RoundHeals(limit: nat, stream: Bytes, dump: Bytes, first: Io, second: Io)
    requires Sendable(dump) && Clean(dump)
    requires Feasible(first, dump) && Feasible(second, dump)
    requires WrittenInFull(first) && WrittenInFull(second)
    ensures var before := Heard(limit, stream);
            var after := Heard(limit, Repair(stream, dump, first, second)).delivered;
            && |before.delivered| <= |after|
            && after[..|before.delivered|] == before.delivered
            && Gains(limit, before.reader, dump, after[|before.delivered|..])
  {
    var before := Heard(limit, stream);
    var twice := Frame(dump) + Frame(dump);
    assert Repair(stream, dump, first, second) == stream + twice;
    HeardAppend(limit, stream, twice);
    CopiesReach(limit, before.reader, dump);
    SplitsAt(before.delivered, Run(limit, Feed(before.reader, twice)).delivered);
  }

  lemma TwoCopiesAfterJunk(limit: nat, buf: Bytes, dump: Bytes)
    requires Sendable(dump) && Step(limit, Reader(Seek, buf)).Wait?
    ensures Run(limit, Reader(Seek, buf + (Frame(dump) + Frame(dump)))).delivered ==
            if |buf| <= limit then [dump, dump] else []
    ensures |buf| <= limit ==>
              Run(limit, Reader(Seek, buf + (Frame(dump) + Frame(dump)))).reader == Reader(Seek, [])
  {
    FindIsFirst(buf);
    TwoFrames(dump);
    ReadPastJunk(limit, buf, [dump, dump]);
  }

  /** What a blocked header does to everything sent afterwards. Nobody is marked. Less than a whole
      separator is junk that the next frame ends; a whole one makes the listener take the following
      separator for a size, and no later frame or round of dumps gets through. */
  lemma {:induction false} CutHeaderEffect(limit: nat, sent: seq<Bytes>, data: Bytes, io: Io, later: seq<Bytes>)
    requires AllSendable(sent) && AllSendable(later) && Feasible(io, data) && io.header.Blocked?
    ensures !Marks(io)
    ensures var k := io.header.accepted;
            var heard := Heard(limit, Stream(sent) + (Accepted(data, io) + Stream(later))).delivered;
            if k < MAGIC_LEN then heard == sent + (if k <= limit then later else [])
            else |Stream(later)| < HUGE ==> heard == sent
  {
    var rest := Accepted(data, io) + Stream(later);
    HeardAfterFrames(limit, sent, rest);
    CutHeaderHeard(limit, |data|, io.header.accepted, later);
    assert sent + [] == sent;
  }

  lemma HeardAfterFrames(limit: nat, sent: seq<Bytes>, more: Bytes)
    requires AllSendable(sent)
    ensures Heard(limit, Stream(sent) + more).delivered == sent + Heard(limit, more).delivered
  {
    RoundTrip(limit, sent);
    HeardAppend(limit, Stream(sent), more);
    assert [] + more == more;
  }

  lemma CutHeaderHeard(limit: nat, n: nat, k: nat, later: seq<Bytes>)
    requires k < HEADER_LEN && AllSendable(later)
    ensures k < MAGIC_LEN ==>
              Heard(limit, Header(n)[..k] + Stream(later)).delivered == if k <= limit then later else []
    ensures k >= MAGIC_LEN && |Stream(later)| < HUGE ==>
              Heard(limit, Header(n)[..k] + Stream(later)).delivered == []
  {
    var cut := Header(n)[..k];
    if k < MAGIC_LEN {
      ReadPastJunk(limit, cut, later);
    } else if |Stream(later)| < HUGE {
      var field := Pack(n, SIZE_LEN)[..k - MAGIC_LEN];
      assert cut + Stream(later) == MAGIC + (field + Stream(later));
      EnterSize(limit, field + Stream(later));
      DeafInSize(limit, field, later);
    }
  }

  /** A call that fails for another reason than a full pipe never marks the worker. If it is the header
      only this update is lost; if it is the payload, which leaves none of its bytes, the listener waits
      for a payload that will not come and takes it from what follows. */
  lemma FailedCallEffect(limit: nat, sent: seq<Bytes>, data: Bytes, io: Io, later: seq<Bytes>)
    requires AllSendable(sent) && AllSendable(later) && Sendable(data) && Feasible(io, data)
    requires io.header.Failed? || (io.header.Done? && io.data.Failed?)
    ensures !Marks(io)
    ensures io.header.Failed? ==>
              Heard(limit, Stream(sent) + Accepted(data, io) + Stream(later)) == Outcome(Reader(Seek, []), sent + later)
    ensures io.header.Done? && data != [] ==>
              Heard(limit, Stream(sent) + Accepted(data, io)) == Outcome(Reader(Body(|data|), []), sent)
  {
    RoundTrip(limit, sent);
    if io.header.Failed? {
      assert Stream(sent) + Accepted(data, io) == Stream(sent);
      RoundTrip(limit, later);
      HeardAppend(limit, Stream(sent), Stream(later));
      assert [] + Stream(later) == Stream(later);
    } else if data != [] {
      HeardAppend(limit, Stream(sent), Accepted(data, io));
      EnterBody(limit, |data|, []);
      assert [] + Accepted(data, io) == Header(|data|) + [] == Accepted(data, io);
      RunWaits(limit, Reader(Body(|data|), []));
      assert sent + [] == sent;
    }
  }

  lemma CutLeavesGap(limit: nat, sent: seq<Bytes>, data: Bytes, io: Io)
    requires AllSendable(sent) && Sendable(data) && Feasible(io, data) && io.header.Done? && io.data.Blocked?
    ensures Heard(limit, Stream(sent) + Accepted(data, io)) ==
            Outcome(Reader(Body(|data|), data[..io.data.accepted]), sent)
  {
    var head := data[..io.data.accepted];
    RoundTrip(limit, sent);
    HeardAppend(limit, Stream(sent), Accepted(data, io));
    assert Feed(Reader(Seek, []), Accepted(data, io)) == Reader(Seek, Header(|data|) + head);
    EnterBody(limit, |data|, head);
    RunWaits(limit, Reader(Body(|data|), head));
    assert sent + [] == sent;
  }

  /** The whole story of one blocked write: any number of updates arrive, one is cut with r payload
      bytes missing and marks the worker, the round follows. */
  lemma BlockedUpdateIsRepaired(limit: nat, sent: seq<Bytes>, data: Bytes, io: Io, dump: Bytes, first: Io, second: Io)
    requires AllSendable(sent) && Sendable(data) && Sendable(dump) && Clean(dump)
    requires Feasible(io, data) && io.header.Done? && io.data.Blocked?
    requires Feasible(first, dump) && Feasible(second, dump) && WrittenInFull(first) && WrittenInFull(second)
    requires |data| - io.data.accepted <= 2 * |Frame(dump)|
    ensures Marks(io)
    ensures var after := Heard(limit, Repair(Stream(sent) + Accepted(data, io), dump, first, second)).delivered;
            var r := |data| - io.data.accepted;
            && |after| > |sent|
            && after[..|sent|] == sent
            && after[|sent| + 1..] == if |Frame(dump)| - limit <= r <= |Frame(dump)| then [dump] else []
  {
    var stream := Stream(sent) + Accepted(data, io);
    CutLeavesGap(limit, sent, data, io);
    RoundHeals(limit, stream, dump, first, second);
    var after := Heard(limit, Repair(stream, dump, first, second)).delivered;
    assert after[|sent|..][1..] == after[|sent| + 1..];
  }
}
