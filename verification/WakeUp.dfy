/** The threads that share resend_dict and its one-slot notification queue: senders that hold the
    upstream lock, the resend thread, and the supervisor, which marks restarted workers without the
    lock (frontik/process.py, frontik/service_discovery.py). One action is one atomic operation. */
module WakeUp {
  import opened Common

  type Pid = int
  type Tid = int

  datatype Owner = Nobody | Sender(tid: Tid) | Resender

  /** A thread inside send_updates. */
  datatype SenderPc =
    | Idle
    | Waiting
    | Sending(todo: seq<Pid>)
    | Marking(pid: Pid, todo: seq<Pid>)
    | Notifying(todo: seq<Pid>)

  /** Which of the two copies of the dump. */
  datatype Copy = First | Second

  /** The resend thread. */
  datatype ResendPc =
    | AwaitToken
    | Asleep
    | Locked
    | Snapped(clients: seq<Pid>)
    | Serving(todo: seq<Pid>)
    | Trying(pid: Pid, copy: Copy, todo: seq<Pid>)
    | ReMarking(pid: Pid, copy: Copy, todo: seq<Pid>)
    | ReNotifying(pid: Pid, copy: Copy, todo: seq<Pid>)

  datatype State = State(
    lock: Owner,
    marks: set<Pid>,        // resend_dict
    token: bool,            // resend_notification
    pipes: set<Pid>,        // write_pipes
    senders: map<Tid, SenderPc>,
    re: ResendPc,
    restarting: bool)       // the supervisor has marked and not yet notified

  datatype Action =
    | SendStart(tid: Tid)
    | SendLock(tid: Tid, todo: seq<Pid>)
    | SendWrite(tid: Tid, blocked: bool)
    | SendMark(tid: Tid)
    | SendNotify(tid: Tid)
    | SendUnlock(tid: Tid)
    | TakeToken
    | ResendLock
    | Snapshot(clients: seq<Pid>)
    | Clear
    | Skip(pid: Pid)
    | Open(pid: Pid)
    | Try(pid: Pid, blocked: bool)
    | ReMark
    | ReNotify
    | ResendUnlock
    | RestartMark(pid: Pid)
    | RestartNotify
    | AddPipe(pid: Pid)
    | DropPipe(pid: Pid)

  function PcOf(s: State, tid: Tid): SenderPc {
    if tid in s.senders then s.senders[tid] else Idle
  }

  function Put(s: State, tid: Tid, pc: SenderPc): State {
    s.(senders := s.senders[tid := pc])
  }

  function AfterCopy(pid: Pid, copy: Copy, todo: seq<Pid>): ResendPc {
    if copy.First? then Trying(pid, Second, todo) else Serving(todo)
  }

  function SenderNext(s: State, a: Action): Option<State>
    requires a.SendStart? || a.SendLock? || a.SendWrite? || a.SendMark? || a.SendNotify? || a.SendUnlock?
  {
    match (a, PcOf(s, a.tid))
    case (SendStart(t), Idle) => Some(Put(s, t, Waiting))
    case (SendLock(t, todo), Waiting) =>
      if s.lock.Nobody? then Some(Put(s, t, Sending(todo)).(lock := Sender(t))) else None
    case (SendWrite(t, blocked), Sending(todo)) =>
      if todo == [] then None
      else Some(Put(s, t, if blocked then Marking(todo[0], todo[1..]) else Sending(todo[1..])))
    case (SendMark(t), Marking(pid, todo)) => Some(Put(s, t, Notifying(todo)).(marks := s.marks + {pid}))
    case (SendNotify(t), Notifying(todo)) => Some(Put(s, t, Sending(todo)).(token := true))
    case (SendUnlock(t), Sending(todo)) =>
      if todo == [] then Some(Put(s, t, Idle).(lock := Nobody)) else None
    case _ => None
  }

  predicate Lists(pids: seq<Pid>, marks: set<Pid>) {
    (forall pid | pid in pids :: pid in marks) && (forall pid | pid in marks :: pid in pids)
  }

  function ResendNext(s: State, a: Action): Option<State> {
    match (a, s.re)
    case (TakeToken, AwaitToken) => if s.token then Some(s.(token := false, re := Asleep)) else None
    case (ResendLock, Asleep) => if s.lock.Nobody? then Some(s.(lock := Resender, re := Locked)) else None
    case (Snapshot(clients), Locked) =>
      if Lists(clients, s.marks) then Some(s.(re := Snapped(clients))) else None
    case (Clear, Snapped(clients)) => Some(s.(marks := {}, re := Serving(clients)))
    case (Skip(pid), Serving(todo)) =>
      if todo != [] && todo[0] == pid && pid !in s.pipes then Some(s.(re := Serving(todo[1..]))) else None
    case (Open(pid), Serving(todo)) =>
      if todo != [] && todo[0] == pid && pid in s.pipes then Some(s.(re := Trying(pid, First, todo[1..]))) else None
    case (Try(pid, blocked), Trying(current, copy, todo)) =>
      if pid != current then None
      else Some(s.(re := if blocked then ReMarking(pid, copy, todo) else AfterCopy(pid, copy, todo)))
    case (ReMark, ReMarking(pid, copy, todo)) =>
      Some(s.(marks := s.marks + {pid}, re := ReNotifying(pid, copy, todo)))
    case (ReNotify, ReNotifying(pid, copy, todo)) => Some(s.(token := true, re := AfterCopy(pid, copy, todo)))
    case (ResendUnlock, Serving(todo)) =>
      if todo == [] then Some(s.(lock := Nobody, re := AwaitToken)) else None
    case _ => None
  }

  function SupervisorNext(s: State, a: Action): Option<State> {
    match a
    case RestartMark(pid) => if s.restarting then None else Some(s.(marks := s.marks + {pid}, restarting := true))
    case RestartNotify => if s.restarting then Some(s.(token := true, restarting := false)) else None
    case AddPipe(pid) => if s.restarting then None else Some(s.(pipes := s.pipes + {pid}))
    case DropPipe(pid) => if s.restarting then None else Some(s.(pipes := s.pipes - {pid}))
    case _ => None
  }

  /** The action's effect, or None where it is not enabled. */
  function Next(s: State, a: Action): Option<State> {
    if a.SendStart? || a.SendLock? || a.SendWrite? || a.SendMark? || a.SendNotify? || a.SendUnlock?
    then SenderNext(s, a)
    else if a.RestartMark? || a.RestartNotify? || a.AddPipe? || a.DropPipe? then SupervisorNext(s, a)
    else ResendNext(s, a)
  }

  function Execute(s: State, run: seq<Action>): Option<State>
    decreases |run|
  {
    if run == [] then Some(s)
    else
      match Next(s, run[0])
      case None => None
      case Some(next) => Execute(next, run[1..])
  }

  function Initial(pipes: set<Pid>): State {
    State(Nobody, {}, false, pipes, map[], AwaitToken, false)
  }

  /******* No lost wake-up *******/

  predicate SenderHolds(pc: SenderPc) {
    pc.Sending? || pc.Marking? || pc.Notifying?
  }

  predicate ResenderHolds(re: ResendPc) {
    !re.AwaitToken? && !re.Asleep?
  }

  predicate MutualExclusion(s: State) {
    && (forall t | t in s.senders :: SenderHolds(s.senders[t]) <==> s.lock == Sender(t))
    && (s.lock.Sender? ==> s.lock.tid in s.senders)
    && (ResenderHolds(s.re) <==> s.lock == Resender)
  }

  /** Some thread has marked a worker and is about to put the token. */
  ghost predicate AboutToNotify(s: State) {
    s.restarting || s.re.ReNotifying? || exists t | t in s.senders :: s.senders[t].Notifying?
  }

  /** The resend thread has taken a token and will still look at resend_dict. */
  predicate TokenInHand(s: State) {
    s.re.Asleep? || s.re.Locked? || s.re.Snapped?
  }

  ghost predicate Awake(s: State) {
    s.marks != {} ==> s.token || TokenInHand(s) || AboutToNotify(s)
  }

  ghost predicate Inv(s: State) {
    MutualExclusion(s) && Awake(s)
  }

  lemma SenderKeepsInv(s: State, a: Action)
    requires Inv(s)
    requires a.SendStart? || a.SendLock? || a.SendWrite? || a.SendMark? || a.SendNotify? || a.SendUnlock?
    requires SenderNext(s, a).Some?
    ensures Inv(SenderNext(s, a).value)
  {
    var next := SenderNext(s, a).value;
    assert a.tid in next.senders;
    if s.marks != {} && !s.token && !TokenInHand(s) && !s.restarting && !s.re.ReNotifying? {
      var t :| t in s.senders && s.senders[t].Notifying?;
      assert t != a.tid ==> next.senders[t] == s.senders[t];
    }
  }

  lemma OthersKeepInv(s: State, a: Action)
    requires Inv(s)
    ensures ResendNext(s, a).Some? ==> Inv(ResendNext(s, a).value)
    ensures SupervisorNext(s, a).Some? ==> Inv(SupervisorNext(s, a).value)
  {
  }

  lemma StepKeepsInv(s: State, a: Action)
    requires Inv(s) && Next(s, a).Some?
    ensures Inv(Next(s, a).value)
  {
    if a.SendStart? || a.SendLock? || a.SendWrite? || a.SendMark? || a.SendNotify? || a.SendUnlock? {
      SenderKeepsInv(s, a);
    } else {
      OthersKeepInv(s, a);
    }
  }

  lemma {:induction false} RunKeepsInv(s: State, run: seq<Action>)
    requires Inv(s) && Execute(s, run).Some?
    ensures Inv(Execute(s, run).value)
    decreases |run|
  {
    if run != [] {
      StepKeepsInv(s, run[0]);
      RunKeepsInv(Next(s, run[0]).value, run[1..]);
    }
  }

  /** In every interleaving, a worker waiting to be served never waits for a resend thread that
      nobody will wake. */
  lemma NoLostWakeUp(pipes: set<Pid>, run: seq<Action>)
    requires Execute(Initial(pipes), run).Some?
    ensures var s := Execute(Initial(pipes), run).value;
            s.marks != {} && !AboutToNotify(s) ==> s.token || TokenInHand(s)
  {
    RunKeepsInv(Initial(pipes), run);
  }

  /******* A blocked write is marked *******/

  lemma OthersLeaveSender(s: State, a: Action, t: Tid)
    requires Next(s, a).Some?
    requires PcOf(s, t).Marking? || PcOf(s, t).Notifying?
    ensures PcOf(s, t).Marking? && a != SendMark(t) ==> PcOf(Next(s, a).value, t) == PcOf(s, t)
    ensures PcOf(s, t).Notifying? && a != SendNotify(t) ==> PcOf(Next(s, a).value, t) == PcOf(s, t)
    ensures PcOf(s, t).Marking? && a == SendMark(t) ==>
              PcOf(s, t).pid in Next(s, a).value.marks && PcOf(Next(s, a).value, t) == Notifying(PcOf(s, t).todo)
    ensures PcOf(s, t).Notifying? && a == SendNotify(t) ==> Next(s, a).value.token
  {
  }

  lemma {:induction false} NotifyFollows(s: State, t: Tid, run: seq<Action>)
    requires Execute(s, run).Some? && PcOf(s, t).Notifying?
    requires !PcOf(Execute(s, run).value, t).Notifying?
    ensures exists j | 0 <= j < |run| :: run[j] == SendNotify(t)
    decreases |run|
  {
    if run[0] != SendNotify(t) {
      OthersLeaveSender(s, run[0], t);
      NotifyFollows(Next(s, run[0]).value, t, run[1..]);
      var j :| 0 <= j < |run| - 1 && run[1..][j] == SendNotify(t);
      assert run[j + 1] == SendNotify(t);
    }
  }

  /** The run marks pid for the sender and puts the token afterwards. */
  ghost predicate MarksAndNotifies(s: State, run: seq<Action>, t: Tid, pid: Pid) {
    exists i, j | 0 <= i < j < |run| ::
      && run[i] == SendMark(t) && run[j] == SendNotify(t)
      && Execute(s, run[..i + 1]).Some? && pid in Execute(s, run[..i + 1]).value.marks
  }

  lemma {:induction false} MarkFollows(s: State, t: Tid, run: seq<Action>)
    requires Execute(s, run).Some? && PcOf(s, t).Marking?
    requires PcOf(Execute(s, run).value, t).Sending? || PcOf(Execute(s, run).value, t).Idle?
    ensures MarksAndNotifies(s, run, t, PcOf(s, t).pid)
    decreases |run|
  {
    var a, next := run[0], Next(s, run[0]).value;
    OthersLeaveSender(s, a, t);
    if a == SendMark(t) {
      NotifyFollows(next, t, run[1..]);
      var j :| 0 <= j < |run| - 1 && run[1..][j] == SendNotify(t);
      assert run[..1] == [a] && [a][1..] == [];
      assert Execute(s, run[..1]) == Some(next);
      assert run[0] == SendMark(t) && run[j + 1] == SendNotify(t) && Execute(s, run[..0 + 1]).Some?;
    } else {
      MarkFollows(next, t, run[1..]);
      var i, j :| 0 <= i < j < |run| - 1 && run[1..][i] == SendMark(t) && run[1..][j] == SendNotify(t)
                  && Execute(next, run[1..][..i + 1]).Some?
                  && PcOf(s, t).pid in Execute(next, run[1..][..i + 1]).value.marks;
      assert run[..i + 2][1..] == run[1..][..i + 1] && run[..i + 2][0] == a;
      assert run[i + 1] == SendMark(t) && run[j + 1] == SendNotify(t) && Execute(s, run[..i + 1 + 1]).Some?;
    }
  }

  /** A sender whose write to a worker blocked does not go on to another worker, let alone give back the
      lock, before it has marked that worker and then put the token; todo lists the workers it has yet
      to write to, the blocked one first. */
  lemma BlockedWriteIsMarked(s: State, t: Tid, run: seq<Action>)
    requires PcOf(s, t).Sending? && PcOf(s, t).todo != []
    requires Execute(s, [SendWrite(t, true)] + run).Some?
    requires var end := Execute(s, [SendWrite(t, true)] + run).value; PcOf(end, t).Sending? || PcOf(end, t).Idle?
    ensures MarksAndNotifies(Next(s, SendWrite(t, true)).value, run, t, PcOf(s, t).todo[0])
  {
    var next := Next(s, SendWrite(t, true)).value;
    Unroll(s, SendWrite(t, true), run, next);
    MarkFollows(next, t, run);
  }

  /** Still busy with the blocked copy. */
  predicate Blocking(re: ResendPc, pid: Pid, copy: Copy, todo: seq<Pid>) {
    re == ReMarking(pid, copy, todo) || re == ReNotifying(pid, copy, todo)
  }

  lemma OthersLeaveResender(s: State, a: Action)
    requires Next(s, a).Some? && (s.re.ReMarking? || s.re.ReNotifying?)
    ensures var next := Next(s, a).value;
            && (s.re.ReMarking? && a != ReMark ==> next.re == s.re)
            && (s.re.ReMarking? && a == ReMark ==>
                  s.re.pid in next.marks && next.re == ReNotifying(s.re.pid, s.re.copy, s.re.todo))
            && (s.re.ReNotifying? && a != ReNotify ==> next.re == s.re)
            && (s.re.ReNotifying? && a == ReNotify ==> next.token)
  {
  }

  lemma {:induction false} ReNotifyFollows(s: State, run: seq<Action>)
    requires Execute(s, run).Some? && s.re.ReNotifying?
    requires !Blocking(Execute(s, run).value.re, s.re.pid, s.re.copy, s.re.todo)
    ensures ReNotify in run
    decreases |run|
  {
    if run[0] != ReNotify {
      OthersLeaveResender(s, run[0]);
      ReNotifyFollows(Next(s, run[0]).value, run[1..]);
    }
  }

  /** The run marks pid for the resend thread and puts the token afterwards. */
  ghost predicate ReMarksAndNotifies(s: State, run: seq<Action>, pid: Pid) {
    exists i | 0 <= i < |run| ::
      && run[i] == ReMark && ReNotify in run[i + 1..]
      && Execute(s, run[..i + 1]).Some? && pid in Execute(s, run[..i + 1]).value.marks
  }

  lemma {:induction false} ReMarkFollows(s: State, run: seq<Action>)
    requires Execute(s, run).Some? && s.re.ReMarking?
    requires !Blocking(Execute(s, run).value.re, s.re.pid, s.re.copy, s.re.todo)
    ensures ReMarksAndNotifies(s, run, s.re.pid)
    decreases |run|
  {
    var a, next := run[0], Next(s, run[0]).value;
    OthersLeaveResender(s, a);
    if a == ReMark {
      ReNotifyFollows(next, run[1..]);
      assert run[..1] == [a] && [a][1..] == [];
      assert run[0] == ReMark && Execute(s, run[..0 + 1]) == Some(next);
    } else {
      ReMarkFollows(next, run[1..]);
      var rest := run[1..];
      var i :| 0 <= i < |rest| && rest[i] == ReMark && ReNotify in rest[i + 1..]
               && Execute(next, rest[..i + 1]).Some? && s.re.pid in Execute(next, rest[..i + 1]).value.marks;
      assert run[..i + 2][1..] == rest[..i + 1] && run[..i + 2][0] == a;
      assert run[i + 1 + 1..] == rest[i + 1..];
      assert run[i + 1] == ReMark && Execute(s, run[..i + 1 + 1]).Some?;
    }
  }

  /** The same for the resend thread: a blocked copy is marked, and the token put, before the thread goes
      on to the next copy or worker or gives back the lock. */
  lemma BlockedTryIsMarked(s: State, pid: Pid, run: seq<Action>)
    requires s.re.Trying? && s.re.pid == pid && Execute(s, [Try(pid, true)] + run).Some?
    requires !Blocking(Execute(s, [Try(pid, true)] + run).value.re, pid, s.re.copy, s.re.todo)
    ensures ReMarksAndNotifies(Next(s, Try(pid, true)).value, run, pid)
  {
    var next := Next(s, Try(pid, true)).value;
    Unroll(s, Try(pid, true), run, next);
    ReMarkFollows(next, run);
  }

  function Writes(run: seq<Action>, t: Tid): nat {
    if run == [] then 0
    else (if run[0].SendWrite? && run[0].tid == t then 1 else 0) + Writes(run[1..], t)
  }

  function Unsent(pc: SenderPc): nat {
    if pc.Sending? || pc.Marking? || pc.Notifying? then |pc.todo| else 0
  }

  lemma {:induction false} WritesCount(s: State, t: Tid, run: seq<Action>)
    requires Execute(s, run).Some? && SenderHolds(PcOf(s, t)) && SendUnlock(t) !in run
    ensures SenderHolds(PcOf(Execute(s, run).value, t))
    ensures Writes(run, t) + Unsent(PcOf(Execute(s, run).value, t)) == Unsent(PcOf(s, t))
    decreases |run|
  {
    if run != [] {
      WriteStep(s, t, run[0]);
      WritesCount(Next(s, run[0]).value, t, run[1..]);
    }
  }

  lemma WriteStep(s: State, t: Tid, a: Action)
    requires Next(s, a).Some? && SenderHolds(PcOf(s, t)) && a != SendUnlock(t)
    ensures SenderHolds(PcOf(Next(s, a).value, t))
    ensures Unsent(PcOf(Next(s, a).value, t)) + (if a.SendWrite? && a.tid == t then 1 else 0) == Unsent(PcOf(s, t))
  {
  }

  /** A sender that has the lock writes to each of its workers before it gives the lock back. */
  lemma SenderWritesToAll(s: State, t: Tid, todo: seq<Pid>, run: seq<Action>)
    requires PcOf(s, t) == Sending(todo) && SendUnlock(t) !in run
    requires Execute(s, run + [SendUnlock(t)]).Some?
    ensures Writes(run, t) == |todo|
    ensures Execute(s, run + [SendUnlock(t)]).value.lock.Nobody?
  {
    PrefixRuns(s, run, [SendUnlock(t)]);
    WritesCount(s, t, run);
    var end := Execute(s, run).value;
    assert [SendUnlock(t)][1..] == [];
    assert Execute(end, [SendUnlock(t)]) == Next(end, SendUnlock(t));
  }

  lemma SetToSeq(marks: set<Pid>) returns (clients: seq<Pid>)
    ensures Lists(clients, marks)
  {
    clients := [];
    if pid :| pid in marks {
      var rest := SetToSeq(marks - {pid});
      clients := [pid] + rest;
    }
  }

  lemma ResenderCanStep(s: State)
    requires ResenderHolds(s.re)
    ensures exists a :: ResendNext(s, a).Some?
  {
    match s.re
    case Locked =>
      var clients := SetToSeq(s.marks);
      assert ResendNext(s, Snapshot(clients)).Some?;
    case Snapped(_) => assert ResendNext(s, Clear).Some?;
    case Serving(todo) =>
      if todo == [] {
        assert ResendNext(s, ResendUnlock).Some?;
      } else if todo[0] in s.pipes {
        assert ResendNext(s, Open(todo[0])).Some?;
      } else {
        assert ResendNext(s, Skip(todo[0])).Some?;
      }
    case Trying(pid, _, _) => assert ResendNext(s, Try(pid, false)).Some?;
    case ReMarking(_, _, _) => assert ResendNext(s, ReMark).Some?;
    case ReNotifying(_, _, _) => assert ResendNext(s, ReNotify).Some?;
  }

  /** The lock is given back by whoever holds it, and the thread that holds it can always go on. */
  lemma HolderGoesOn(pipes: set<Pid>, run: seq<Action>)
    requires Execute(Initial(pipes), run).Some?
    ensures var s := Execute(Initial(pipes), run).value;
            && (s.lock.Nobody? <==> !ResenderHolds(s.re) && forall t | t in s.senders :: !SenderHolds(s.senders[t]))
            && (s.lock.Sender? ==>
                  || SenderNext(s, SendUnlock(s.lock.tid)).Some? || SenderNext(s, SendWrite(s.lock.tid, false)).Some?
                  || SenderNext(s, SendMark(s.lock.tid)).Some? || SenderNext(s, SendNotify(s.lock.tid)).Some?)
            && (s.lock.Resender? ==> exists a :: ResendNext(s, a).Some?)
  {
    RunKeepsInv(Initial(pipes), run);
    var s := Execute(Initial(pipes), run).value;
    if s.lock == Resender {
      ResenderCanStep(s);
    }
  }

  /******* A mark is dropped only after two tries *******/

  /** Copies that follow this one. */
  function Left(copy: Copy): nat {
    if copy.First? then 1 else 0
  }

  /** Full dumps the resend thread still has to try for pid in the round it is in. */
  function InRound(re: ResendPc, pid: Pid): nat {
    match re
    case AwaitToken => 0
    case Asleep => 0
    case Locked => 0
    case Snapped(clients) => if pid in clients then 2 else 0
    case Serving(todo) => if pid in todo then 2 else 0
    case Trying(p, copy, todo) => if pid in todo then 2 else if p == pid then Left(copy) + 1 else 0
    case ReMarking(p, copy, todo) => if pid in todo then 2 else if p == pid then Left(copy) else 0
    case ReNotifying(p, copy, todo) => if pid in todo then 2 else if p == pid then Left(copy) else 0
  }

  /** The mark was placed after the round's snapshot and before its clear. */
  predicate TooLate(s: State, pid: Pid) {
    s.re.Snapped? && pid !in s.re.clients
  }

  /** Full dumps pid is still certain to be tried with, as long as its pipe exists. */
  function Due(s: State, pid: Pid): nat {
    if pid in s.marks && !TooLate(s, pid) then 2 else InRound(s.re, pid)
  }

  function Tries(run: seq<Action>, pid: Pid): nat {
    if run == [] then 0
    else (if run[0].Try? && run[0].pid == pid then 1 else 0) + Tries(run[1..], pid)
  }

  lemma StepKeepsDue(s: State, a: Action, pid: Pid)
    requires Next(s, a).Some? && a != Skip(pid)
    ensures Due(s, pid) <= Due(Next(s, a).value, pid) + (if a.Try? && a.pid == pid then 1 else 0)
  {
    match a {
      case Skip(p) =>
        assert s.re.todo == [p] + s.re.todo[1..];
      case Open(p) =>
        assert s.re.todo == [p] + s.re.todo[1..];
      case Snapshot(clients) =>
        assert pid in s.marks <==> pid in clients;
      case _ =>
    }
  }

  lemma {:induction false} RunKeepsDue(s: State, run: seq<Action>, pid: Pid)
    requires Execute(s, run).Some? && Skip(pid) !in run
    ensures Due(s, pid) <= Due(Execute(s, run).value, pid) + Tries(run, pid)
    decreases |run|
  {
    if run != [] {
      StepKeepsDue(s, run[0], pid);
      RunKeepsDue(Next(s, run[0]).value, run[1..], pid);
    }
  }

  /** The action marks pid, and not in the window between a round's snapshot and its clear. The
      two actions that run under the lock can never be in that window. */
  predicate MarksInTime(s: State, mark: Action, pid: Pid) {
    || (mark.SendMark? && PcOf(s, mark.tid).Marking? && PcOf(s, mark.tid).pid == pid)
    || (mark.ReMark? && s.re.ReMarking? && s.re.pid == pid)
    || (mark == RestartMark(pid) && !s.restarting && !TooLate(s, pid))
  }

  /** A mark placed at any point of any run: by the time it is gone and no round is working on it,
      the worker's pipe was tried with a full dump at least twice, or a round found that the pipe
      no longer exists. */
  lemma ForgottenOnlyAfterTries(s: State, mark: Action, pid: Pid, run: seq<Action>)
    requires Inv(s) && MarksInTime(s, mark, pid)
    requires Execute(Next(s, mark).value, run).Some?
    ensures var end := Execute(Next(s, mark).value, run).value;
            pid !in end.marks && InRound(end.re, pid) == 0 ==> Tries(run, pid) >= 2 || Skip(pid) in run
  {
    var marked := Next(s, mark).value;
    assert Due(marked, pid) == 2;
    if Skip(pid) !in run {
      RunKeepsDue(marked, run, pid);
    }
  }

  predicate Kept(s: State, pid: Pid) {
    pid in s.marks && !TooLate(s, pid)
  }

  /** Only a clear removes marks, and every snapshot takes them all. */
  lemma {:induction false} KeptUntilClear(s: State, run: seq<Action>, pid: Pid)
    requires Kept(s, pid) && Clear !in run && Execute(s, run).Some?
    ensures Kept(Execute(s, run).value, pid)
    decreases |run|
  {
    if run != [] {
      var next := Next(s, run[0]).value;
      assert run[0].Snapshot? ==> (pid in s.marks <==> pid in run[0].clients);
      KeptUntilClear(next, run[1..], pid);
    }
  }

  lemma RoundStep(s: State, a: Action, pid: Pid)
    requires Next(s, a).Some? && a != Skip(pid)
    ensures InRound(s.re, pid) <= InRound(Next(s, a).value.re, pid) + (if a.Try? && a.pid == pid then 1 else 0)
  {
    if a.Skip? || a.Open? {
      assert s.re.todo == [a.pid] + s.re.todo[1..];
    }
  }

  lemma {:induction false} RoundRun(s: State, run: seq<Action>, pid: Pid)
    requires Execute(s, run).Some? && Skip(pid) !in run
    ensures InRound(s.re, pid) <= InRound(Execute(s, run).value.re, pid) + Tries(run, pid)
    decreases |run|
  {
    if run != [] {
      RoundStep(s, run[0], pid);
      RoundRun(Next(s, run[0]).value, run[1..], pid);
    }
  }

  lemma {:induction false} PrefixRuns(s: State, a: seq<Action>, b: seq<Action>)
    requires Execute(s, a + b).Some?
    ensures Execute(s, a).Some? && Execute(Execute(s, a).value, b) == Execute(s, a + b)
    decreases |a|
  {
    if a != [] {
      assert (a + b)[0] == a[0] && (a + b)[1..] == a[1..] + b;
      PrefixRuns(Next(s, a[0]).value, a[1..], b);
    } else {
      assert a + b == b;
    }
  }

  /** From a clear to the end of its round, with the snapshot clients. */
  lemma RoundServes(s: State, b: seq<Action>, pid: Pid)
    requires s.re.Snapped? && pid in s.re.clients && Execute(s, [Clear] + b + [ResendUnlock]).Some?
    ensures Tries(b, pid) >= 2 || Skip(pid) in b
  {
    assert [Clear] + b + [ResendUnlock] == [Clear] + (b + [ResendUnlock]);
    var cleared := Next(s, Clear).value;
    Unroll(s, Clear, b + [ResendUnlock], cleared);
    PrefixRuns(cleared, b, [ResendUnlock]);
    if Skip(pid) !in b {
      RoundRun(cleared, b, pid);
    }
  }

  /** At that point of the run the round skips the worker, whose pipe is gone. */
  ghost predicate SkipsGone(s: State, run: seq<Action>, pid: Pid, i: nat) {
    && i < |run| && run[i] == Skip(pid)
    && Execute(s, run[..i]).Some? && pid !in Execute(s, run[..i]).value.pipes
  }

  lemma SkipMeansGone(s: State, run: seq<Action>, pid: Pid)
    requires Execute(s, run).Some? && Skip(pid) in run
    ensures exists i :: SkipsGone(s, run, pid, i)
  {
    var i :| 0 <= i < |run| && run[i] == Skip(pid);
    assert run == run[..i] + run[i..];
    PrefixRuns(s, run[..i], run[i..]);
    assert run[i..][0] == Skip(pid);
    assert SkipsGone(s, run, pid, i);
  }

  /** A mark placed at any point of any run is still there when the next round takes its snapshot;
      that round is the one that clears it, and before it ends it has tried the worker's pipe with a
      full dump twice or found that the pipe no longer exists. a is what happens up to that clear,
      b the rest of its round. */
  lemma MarkIsServed(s: State, mark: Action, pid: Pid, a: seq<Action>, b: seq<Action>)
    requires Inv(s) && MarksInTime(s, mark, pid) && Clear !in a && ResendUnlock !in b
    requires Execute(Next(s, mark).value, a + ([Clear] + b + [ResendUnlock])).Some?
    ensures Execute(Next(s, mark).value, a).Some? && Execute(Next(s, mark).value, a + [Clear]).Some?
    ensures var snapped := Execute(Next(s, mark).value, a).value;
            pid in snapped.marks && snapped.re.Snapped? && pid in snapped.re.clients
    ensures Tries(b, pid) >= 2 || exists i :: SkipsGone(Execute(Next(s, mark).value, a + [Clear]).value, b, pid, i)
  {
    var marked := Next(s, mark).value;
    PrefixRuns(marked, a, [Clear] + b + [ResendUnlock]);
    assert a + ([Clear] + b + [ResendUnlock]) == a + [Clear] + (b + [ResendUnlock]);
    PrefixRuns(marked, a + [Clear], b + [ResendUnlock]);
    KeptUntilClear(marked, a, pid);
    var snapped := Execute(marked, a).value;
    assert ([Clear] + b + [ResendUnlock])[0] == Clear;
    RoundServes(snapped, b, pid);
    if Skip(pid) in b {
      PrefixRuns(Execute(marked, a + [Clear]).value, b, [ResendUnlock]);
      SkipMeansGone(Execute(marked, a + [Clear]).value, b, pid);
    }
  }

  lemma StaysTooLate(s: State, a: Action, pid: Pid)
    requires Inv(s) && TooLate(s, pid) && Next(s, a).Some? && a != Clear
    ensures TooLate(Next(s, a).value, pid)
  {
    assert s.lock == Resender;
  }

  lemma {:induction false} WindowStays(s: State, run: seq<Action>, pid: Pid)
    requires Inv(s) && TooLate(s, pid) && Clear !in run && Execute(s, run).Some?
    ensures Inv(Execute(s, run).value) && TooLate(Execute(s, run).value, pid)
    ensures Tries(run, pid) == 0
    decreases |run|
  {
    if run != [] {
      StaysTooLate(s, run[0], pid);
      StepKeepsInv(s, run[0]);
      WindowStays(Next(s, run[0]).value, run[1..], pid);
    }
  }

  /** The condition is exact: a restart mark inside the window is wiped by the next clear, whatever
      comes before it, with no try made and none to come. */
  lemma LateMarkIsWiped(s: State, pid: Pid, run: seq<Action>)
    requires Inv(s) && !s.restarting && TooLate(s, pid)
    requires Clear !in run && Execute(Next(s, RestartMark(pid)).value, run + [Clear]).Some?
    ensures Tries(run, pid) == 0
    ensures var end := Execute(Next(s, RestartMark(pid)).value, run + [Clear]).value;
            pid !in end.marks && InRound(end.re, pid) == 0
  {
    var marked := Next(s, RestartMark(pid)).value;
    PrefixRuns(marked, run, [Clear]);
    StepKeepsInv(s, RestartMark(pid));
    WindowStays(marked, run, pid);
    var window := Execute(marked, run).value;
    Unroll(window, Clear, [], Next(window, Clear).value);
    assert [Clear] + [] == [Clear];
  }

  /** Served or wiped: what becomes of a restart mark is decided by the clear that follows. The worker
      is in that round's snapshot if and only if the mark was placed in time. */
  lemma RestartMarkServedExactly(s: State, pid: Pid, run: seq<Action>)
    requires Inv(s) && !s.restarting && Clear !in run
    requires Execute(Next(s, RestartMark(pid)).value, run + [Clear]).Some?
    ensures var cleared := Execute(Next(s, RestartMark(pid)).value, run + [Clear]).value;
            && pid !in cleared.marks && cleared.re.Serving?
            && (pid in cleared.re.todo <==> MarksInTime(s, RestartMark(pid), pid))
  {
    var marked := Next(s, RestartMark(pid)).value;
    PrefixRuns(marked, run, [Clear]);
    var window := Execute(marked, run).value;
    Unroll(window, Clear, [], Next(window, Clear).value);
    assert [Clear] + [] == [Clear];
    if TooLate(s, pid) {
      LateMarkIsWiped(s, pid, run);
    } else {
      KeptUntilClear(marked, run, pid);
    }
  }

  lemma Unroll(s: State, a: Action, rest: seq<Action>, next: State)
    requires Next(s, a) == Some(next)
    ensures Execute(s, [a] + rest) == Execute(next, rest)
  {
    assert ([a] + rest)[1..] == rest;
  }

  lemma {:induction false} ExecuteConcat(s: State, a: seq<Action>, b: seq<Action>)
    requires Execute(s, a).Some?
    ensures Execute(s, a + b) == Execute(Execute(s, a).value, b)
    decreases |a|
  {
    if a == [] {
      assert a + b == b;
    } else {
      ExecuteConcat(Next(s, a[0]).value, a[1..], b);
      assert (a + b)[1..] == a[1..] + b;
    }
  }

  /** The resend thread holds a snapshot of the one worker gone. */
  function AtSnapshot(gone: Pid): State {
    State(Resender, {gone}, false, {gone}, map[], Snapped([gone]), false)
  }

  lemma ReachSnapshot(gone: Pid)
    ensures Execute(Initial({gone}), [RestartMark(gone), RestartNotify, TakeToken, ResendLock, Snapshot([gone])])
            == Some(AtSnapshot(gone))
  {
    var s0 := Initial({gone});
    var s1 := s0.(marks := {} + {gone}, restarting := true);
    var s2 := s1.(token := true, restarting := false);
    Unroll(s0, RestartMark(gone), [RestartNotify, TakeToken, ResendLock, Snapshot([gone])], s1);
    Unroll(s1, RestartNotify, [TakeToken, ResendLock, Snapshot([gone])], s2);
    TakeAndSnapshot(s2, gone);
  }

  lemma TakeAndSnapshot(s: State, gone: Pid)
    requires s == State(Nobody, {gone}, true, {gone}, map[], AwaitToken, false)
    ensures Execute(s, [TakeToken, ResendLock, Snapshot([gone])]) == Some(AtSnapshot(gone))
  {
    var s1 := s.(token := false, re := Asleep);
    var s2 := s1.(lock := Resender, re := Locked);
    assert Lists([gone], {gone});
    Unroll(s, TakeToken, [ResendLock, Snapshot([gone])], s1);
    Unroll(s1, ResendLock, [Snapshot([gone])], s2);
    Unroll(s2, Snapshot([gone]), [], AtSnapshot(gone));
  }

  /** The supervisor replaces gone by young and marks it before the clear. */
  lemma MarkTooLate(gone: Pid, young: Pid)
    requires gone != young
    ensures Execute(AtSnapshot(gone), [DropPipe(gone), AddPipe(young), RestartMark(young), Clear])
            == Some(State(Resender, {}, false, {young}, map[], Serving([gone]), true))
  {
    var s0 := AtSnapshot(gone);
    var s1 := s0.(pipes := {gone} - {gone});
    var s2 := s1.(pipes := {gone} - {gone} + {young});
    var s3 := s2.(marks := {gone} + {young}, restarting := true);
    assert {gone} - {gone} + {young} == {young};
    Unroll(s0, DropPipe(gone), [AddPipe(young), RestartMark(young), Clear], s1);
    Unroll(s1, AddPipe(young), [RestartMark(young), Clear], s2);
    Unroll(s2, RestartMark(young), [Clear], s3);
    Unroll(s3, Clear, [], s3.(marks := {}, re := Serving([gone])));
  }

  lemma FinishRound(gone: Pid, young: Pid)
    requires gone != young
    ensures Execute(State(Resender, {}, false, {young}, map[], Serving([gone]), true),
                    [RestartNotify, Skip(gone), ResendUnlock])
            == Some(State(Nobody, {}, true, {young}, map[], AwaitToken, false))
  {
    var s0 := State(Resender, {}, false, {young}, map[], Serving([gone]), true);
    var s1 := s0.(token := true, restarting := false);
    var s2 := s1.(re := Serving([]));
    Unroll(s0, RestartNotify, [Skip(gone), ResendUnlock], s1);
    assert [gone][1..] == [];
    Unroll(s1, Skip(gone), [ResendUnlock], s2);
    Unroll(s2, ResendUnlock, [], s2.(lock := Nobody, re := AwaitToken));
  }

  /** A restart mark in that window: the run contains no try for the new worker, it ends with the
      new worker's pipe open and nothing owed to it, and the wake-up finds an empty dictionary. */
  lemma RestartMarkCanBeLost(gone: Pid, young: Pid)
    requires gone != young
    ensures var run := [RestartMark(gone), RestartNotify, TakeToken, ResendLock, Snapshot([gone])]
                       + [DropPipe(gone), AddPipe(young), RestartMark(young), Clear]
                       + [RestartNotify, Skip(gone), ResendUnlock];
            && (forall a | a in run :: !a.Try?)
            && Execute(Initial({gone}), run).Some?
            && var end := Execute(Initial({gone}), run).value;
               young in end.pipes && end.marks == {} && Due(end, young) == 0
  {
    var a := [RestartMark(gone), RestartNotify, TakeToken, ResendLock, Snapshot([gone])];
    var b := [DropPipe(gone), AddPipe(young), RestartMark(young), Clear];
    var c := [RestartNotify, Skip(gone), ResendUnlock];
    ReachSnapshot(gone);
    MarkTooLate(gone, young);
    FinishRound(gone, young);
    ExecuteConcat(Initial({gone}), a, b);
    ExecuteConcat(Initial({gone}), a + b, c);
  }

  /******* A whole repair *******/

  lemma BlockedSend(t: Tid, pid: Pid)
    ensures Execute(Initial({pid}), [SendStart(t), SendLock(t, [pid]), SendWrite(t, true)]
                                    + [SendMark(t), SendNotify(t), SendUnlock(t)])
            == Some(State(Nobody, {pid}, true, {pid}, map[t := Idle], AwaitToken, false))
  {
    var s0 := Initial({pid});
    var s1 := s0.(senders := map[t := Waiting]);
    var s2 := s1.(senders := map[t := Sending([pid])], lock := Sender(t));
    var s3 := s2.(senders := map[t := Marking(pid, [])]);
    var s4 := s3.(senders := map[t := Notifying([])], marks := {} + {pid});
    var s5 := s4.(senders := map[t := Sending([])], token := true);
    var s6 := s5.(senders := map[t := Idle], lock := Nobody);
    var b := [SendMark(t), SendNotify(t), SendUnlock(t)];
    assert [pid][1..] == [];
    assert s1.senders[t := Sending([pid])] == s2.senders && s2.senders[t := Marking(pid, [])] == s3.senders;
    assert s3.senders[t := Notifying([])] == s4.senders && s4.senders[t := Sending([])] == s5.senders;
    assert s5.senders[t := Idle] == s6.senders && {} + {pid} == {pid};
    Unroll(s3, SendMark(t), [SendNotify(t), SendUnlock(t)], s4);
    Unroll(s4, SendNotify(t), [SendUnlock(t)], s5);
    Unroll(s5, SendUnlock(t), [], s6);
    Unroll(s2, SendWrite(t, true), [] + b, s3);
    Unroll(s1, SendLock(t, [pid]), [SendWrite(t, true)] + b, s2);
    Unroll(s0, SendStart(t), [SendLock(t, [pid]), SendWrite(t, true)] + b, s1);
    assert [SendWrite(t, true)] + ([] + b) == [SendWrite(t, true)] + b;
    assert [SendLock(t, [pid])] + ([SendWrite(t, true)] + b) == [SendLock(t, [pid]), SendWrite(t, true)] + b;
    assert [SendStart(t)] + ([SendLock(t, [pid]), SendWrite(t, true)] + b) ==
           [SendStart(t), SendLock(t, [pid]), SendWrite(t, true)] + b;
  }

  lemma RepairRound(s: State, pid: Pid)
    requires s.lock.Nobody? && s.marks == {pid} && s.token && pid in s.pipes && s.re.AwaitToken?
    ensures Execute(s, [TakeToken, ResendLock, Snapshot([pid])] + [Clear, Open(pid), Try(pid, false)]
                       + [Try(pid, false), ResendUnlock])
            == Some(s.(marks := {}, token := false))
  {
    var s1 := s.(token := false, re := Asleep);
    var s2 := s1.(lock := Resender, re := Locked);
    var s3 := s2.(re := Snapped([pid]));
    var s4 := s3.(marks := {}, re := Serving([pid]));
    var s5 := s4.(re := Trying(pid, First, []));
    var s6 := s5.(re := Trying(pid, Second, []));
    var s7 := s6.(re := Serving([]));
    var a, b, c := [TakeToken, ResendLock, Snapshot([pid])], [Clear, Open(pid), Try(pid, false)],
                   [Try(pid, false), ResendUnlock];
    assert [pid][1..] == [];
    Unroll(s, TakeToken, [ResendLock, Snapshot([pid])], s1);
    Unroll(s1, ResendLock, [Snapshot([pid])], s2);
    Unroll(s2, Snapshot([pid]), [], s3);
    Unroll(s3, Clear, [Open(pid), Try(pid, false)], s4);
    Unroll(s4, Open(pid), [Try(pid, false)], s5);
    Unroll(s5, Try(pid, false), [], s6);
    Unroll(s6, Try(pid, false), [ResendUnlock], s7);
    Unroll(s7, ResendUnlock, [], s7.(lock := Nobody, re := AwaitToken));
    ExecuteConcat(s, a, b);
    ExecuteConcat(s, a + b, c);
  }

  /** One blocked write and its repair, from the start: the worker is marked, the resend thread wakes up,
      writes both copies, and everything is as it was. */
  lemma BlockedWriteIsRepaired(t: Tid, pid: Pid)
    ensures var send := [SendStart(t), SendLock(t, [pid]), SendWrite(t, true)]
                        + [SendMark(t), SendNotify(t), SendUnlock(t)];
            var repair := [TakeToken, ResendLock, Snapshot([pid])] + [Clear, Open(pid), Try(pid, false)]
                          + [Try(pid, false), ResendUnlock];
            Execute(Initial({pid}), send + repair) == Some(Initial({pid}).(senders := map[t := Idle]))
  {
    BlockedSend(t, pid);
    RepairRound(State(Nobody, {pid}, true, {pid}, map[t := Idle], AwaitToken, false), pid);
    ExecuteConcat(Initial({pid}), [SendStart(t), SendLock(t, [pid]), SendWrite(t, true)]
                                  + [SendMark(t), SendNotify(t), SendUnlock(t)],
                  [TakeToken, ResendLock, Snapshot([pid])] + [Clear, Open(pid), Try(pid, false)]
                  + [Try(pid, false), ResendUnlock]);
  }
}
