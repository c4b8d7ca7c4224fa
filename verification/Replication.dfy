/** Master and workers keep the same upstreams: fork-time snapshots, the full send when the hook is
    installed, single-upstream updates and full dumps for restarted workers, over pipes that do not
    block (frontik/service_discovery.py, frontik/process.py, frontik/server.py). */
module Replication {
  import opened Common
  import opened Discovery

  type Pid = int
  type Upstreams = map<Name, Upstream>
  type Message = seq<(Name, Upstream)>

  /******* The worker *******/

  /** An unknown upstream is stored, a known one updated; live servers and config become those of
      the message either way. */
  function Apply(replica: Upstreams, message: Message): Upstreams {
    if message == [] then replica
    else
      var n := |message| - 1;
      Apply(replica, message[..n])[message[n].0 := message[n].1]
  }

  class WorkerServiceDiscovery {
    var upstreams: Upstreams

    constructor (initial: Upstreams)
      ensures upstreams == initial
    {
      upstreams := initial;
    }

    method UpdateUpstreams(message: Message)
      modifies this
      ensures upstreams == Apply(old(upstreams), message)
    {
      for i := 0 to |message|
        invariant upstreams == Apply(old(upstreams), message[..i])
      {
        assert message[..i + 1][..i] == message[..i];
        upstreams := upstreams[message[i].0 := message[i].1];
      }
      assert message[..|message|] == message;
    }
  }

  function Names(message: Message): set<Name> {
    set i | 0 <= i < |message| :: message[i].0
  }

  /** list(self._upstreams.values()), in any order. */
  predicate IsDump(dump: Message, published: Upstreams) {
    && Names(dump) == published.Keys
    && forall i | 0 <= i < |dump| :: dump[i].0 in published && dump[i].1 == published[dump[i].0]
  }

  predicate Agree(replica: Upstreams, published: Upstreams, key: Name) {
    if key in published then key in replica && replica[key] == published[key] else key !in replica
  }

  lemma {:induction false} ApplyConsistent(replica: Upstreams, message: Message, published: Upstreams, key: Name)
    requires forall i | 0 <= i < |message| :: message[i].0 in published && message[i].1 == published[message[i].0]
    ensures var after := Apply(replica, message);
            if key in Names(message) then key in after && after[key] == published[key]
            else (key in after <==> key in replica) && (key in replica ==> after[key] == replica[key])
  {
    if message != [] {
      var n := |message| - 1;
      ApplyConsistent(replica, message[..n], published, key);
      assert forall k | k in Names(message) :: k in Names(message[..n]) || k == message[n].0;
      assert message[n].0 in Names(message);
      forall k | k in Names(message[..n]) ensures k in Names(message) {
        var i :| 0 <= i < n && message[..n][i].0 == k;
        assert message[i].0 == k;
      }
    }
  }

  /** A full dump repairs any worker, however far it has drifted, exactly if the worker knows no
      upstream that the master does not. */
  lemma DumpRepairs(replica: Upstreams, dump: Message, published: Upstreams)
    requires IsDump(dump, published)
    ensures Apply(replica, dump) == published <==> replica.Keys <= published.Keys
  {
    var after := Apply(replica, dump);
    forall key: Name
      ensures if key in published then key in after && after[key] == published[key]
              else (key in after <==> key in replica)
    {
      ApplyConsistent(replica, dump, published, key);
    }
    assert after == published ==> forall key | key in replica :: key in published;
  }

  /******* The system *******/

  datatype Worker = Worker(replica: Upstreams, inbox: seq<Message>)

  /** sending: threads between publishing an upstream and sending it, with the content of the object
      each will pickle. shared: those whose object is the published one itself, which is so for the
      thread that publishes a name first; later rebuilds update it in place. owed: workers forked but
      not yet sent a full dump. */
  datatype System = System(
    published: Upstreams,
    sending: map<Tid, (Name, Upstream)>,
    shared: set<Tid>,
    hook: bool,
    workers: map<Pid, Worker>,
    pipes: set<Pid>,
    owed: set<Pid>)

  datatype Event =
    | Rebuilt(tid: Tid, key: Name, upstream: Upstream)  // the locked rebuild
    | Send(tid: Tid)                                     // send_updates(upstream), locked
    | Fork(pid: Pid)                                     // snapshot under the lock, then fork
    | Register(pid: Pid)                                 // write_pipes[pid] = ...
    | InstallHook
    | SendAll(dump: Message)                             // send_updates()
    | Resend(clients: set<Pid>, dump: Message)           // a resend round, two copies each
    | Deliver(pid: Pid)
    | Die(pid: Pid)

  function Post(w: Worker, ms: seq<Message>): Worker {
    w.(inbox := w.inbox + ms)
  }

  function Broadcast(workers: map<Pid, Worker>, pids: set<Pid>, ms: seq<Message>): map<Pid, Worker> {
    map pid | pid in workers :: if pid in pids then Post(workers[pid], ms) else workers[pid]
  }

  /** An update in place of the published object, as the threads that are about to send see it. */
  function Touched(s: System, key: Name, upstream: Upstream): map<Tid, (Name, Upstream)> {
    map t | t in s.sending :: if t in s.shared && s.sending[t].0 == key then (key, upstream) else s.sending[t]
  }

  function Step(s: System, e: Event): Option<System> {
    match e
    case Rebuilt(t, key, upstream) =>
      if t in s.sending then None
      else Some(s.(published := s.published[key := upstream],
                   sending := Touched(s, key, upstream)[t := (key, upstream)],
                   shared := if key in s.published then s.shared - {t} else s.shared + {t}))
    case Send(t) =>
      if t !in s.sending then None
      else Some(s.(sending := s.sending - {t}, shared := s.shared - {t},
                   workers := if s.hook then Broadcast(s.workers, s.pipes, [[s.sending[t]]]) else s.workers))
    case Fork(pid) =>
      if pid in s.workers then None
      else Some(s.(workers := s.workers[pid := Worker(s.published, [])], owed := s.owed + {pid}))
    case Register(pid) =>
      if pid !in s.workers || pid in s.pipes then None else Some(s.(pipes := s.pipes + {pid}))
    case InstallHook => Some(s.(hook := true))
    case SendAll(dump) =>
      if !s.hook || !IsDump(dump, s.published) then None
      else Some(s.(workers := Broadcast(s.workers, s.pipes, [dump]), owed := s.owed - s.pipes))
    case Resend(clients, dump) =>
      if !s.hook || !(clients <= s.pipes) || !IsDump(dump, s.published) then None
      else Some(s.(workers := Broadcast(s.workers, clients, [dump, dump]), owed := s.owed - clients))
    case Deliver(pid) =>
      if pid !in s.workers || s.workers[pid].inbox == [] then None
      else
        var w := s.workers[pid];
        Some(s.(workers := s.workers[pid := Worker(Apply(w.replica, w.inbox[0]), w.inbox[1..])]))
    case Die(pid) =>
      Some(s.(workers := s.workers - {pid}, pipes := s.pipes - {pid}, owed := s.owed - {pid}))
  }

  const START := System(map[], map[], {}, false, map[], {}, {})

  /** Runs grow at the end. */
  function History(s: System, run: seq<Event>): Option<System> {
    if run == [] then Some(s)
    else
      match History(s, run[..|run| - 1])
      case None => None
      case Some(t) => Step(t, run[|run| - 1])
  }

  lemma HistoryMore(s: System, run: seq<Event>, e: Event)
    requires History(s, run).Some?
    ensures History(s, run + [e]) == Step(History(s, run).value, e)
  {
    assert (run + [e])[..|run|] == run;
  }

  ghost predicate InFlight(s: System, key: Name) {
    exists t | t in s.sending :: s.sending[t].0 == key
  }

  /** A thread has yet to send what is published for the key. */
  ghost predicate CurrentInFlight(s: System, key: Name) {
    key in s.published && exists t | t in s.sending :: s.sending[t] == (key, s.published[key])
  }

  /** What the thread is about to send is what is published, or else some other thread has yet to
      send that: an update that has been overtaken goes out before the one that overtook it. A shared
      object is always what is published. */
  ghost predicate InTurn(s: System, t: Tid)
    requires t in s.sending
  {
    var (key, upstream) := s.sending[t];
    key in s.published ==>
      || upstream == s.published[key]
      || exists u | u in s.sending :: u != t && s.sending[u] == (key, s.published[key])
  }

  /** Every update is sent in its turn. */
  ghost predicate Ordered(s: System, run: seq<Event>) {
    run == [] ||
    (var n := |run| - 1;
     Ordered(s, run[..n]) &&
     (History(s, run).Some? && run[n].Send? ==> InTurn(History(s, run[..n]).value, run[n].tid)))
  }

  /** Each update of an upstream is sent before the next update of that upstream begins. */
  ghost predicate Serial(s: System, run: seq<Event>) {
    run == [] ||
    (var n := |run| - 1;
     Serial(s, run[..n]) &&
     (History(s, run).Some? && run[n].Rebuilt? ==> !InFlight(History(s, run[..n]).value, run[n].key)))
  }

  /******* Agreement *******/

  /** The replica once everything already in the pipe has been read. */
  function Eventual(w: Worker): Upstreams {
    Drain(w.replica, w.inbox)
  }

  function Drain(replica: Upstreams, inbox: seq<Message>): Upstreams {
    if inbox == [] then replica
    else Apply(Drain(replica, inbox[..|inbox| - 1]), inbox[|inbox| - 1])
  }

  lemma {:induction false} DrainHead(replica: Upstreams, inbox: seq<Message>)
    requires inbox != []
    ensures Drain(replica, inbox) == Drain(Apply(replica, inbox[0]), inbox[1..])
  {
    var n := |inbox| - 1;
    if n == 0 {
      assert inbox[..n] == [];
      assert inbox[1..] == [];
      assert Drain(replica, inbox) == Apply(Drain(replica, []), inbox[0]);
    } else {
      DrainHead(replica, inbox[..n]);
      assert inbox[1..][..n - 1] == inbox[..n][1..];
      assert inbox[1..][n - 1] == inbox[n];
    }
  }

  lemma EventualPost(w: Worker, m: Message)
    ensures Eventual(Post(w, [m])) == Apply(Eventual(w), m)
    ensures Eventual(Post(w, [m, m])) == Apply(Apply(Eventual(w), m), m)
  {
    assert (w.inbox + [m])[..|w.inbox|] == w.inbox;
    assert (w.inbox + [m, m])[..|w.inbox| + 1] == w.inbox + [m];
    assert Drain(w.replica, w.inbox + [m]) == Apply(Drain(w.replica, w.inbox), m);
  }

  lemma ApplyOne(replica: Upstreams, u: (Name, Upstream))
    ensures Apply(replica, [u]) == replica[u.0 := u.1]
  {
    assert Apply(replica, [u][..0]) == replica;
  }

  ghost predicate InSyncAt(s: System, replica: Upstreams, key: Name) {
    Agree(replica, s.published, key) || CurrentInFlight(s, key)
  }

  ghost predicate InSync(s: System, w: Worker) {
    forall key: Name :: InSyncAt(s, Eventual(w), key)
  }

  ghost predicate Inv(s: System) {
    && (forall t | t in s.sending :: s.sending[t].0 in s.published)
    && (forall t | t in s.sending && t in s.shared :: s.sending[t].1 == s.published[s.sending[t].0])
    && (forall pid | pid in s.pipes || pid in s.owed :: pid in s.workers)
    && (forall pid | pid in s.workers && pid !in s.pipes :: pid in s.owed)
    && (forall pid | pid in s.workers :: Eventual(s.workers[pid]).Keys <= s.published.Keys)
    && (forall pid | pid in s.pipes && pid !in s.owed :: s.hook && InSync(s, s.workers[pid]))
  }

  lemma RebuiltKeepsInv(s: System, e: Event)
    requires Inv(s) && e.Rebuilt? && Step(s, e).Some?
    ensures Inv(Step(s, e).value)
  {
    var s' := Step(s, e).value;
    assert s'.sending[e.tid] == (e.key, e.upstream);
    forall key: Name ensures key == e.key || CurrentInFlight(s, key) ==> CurrentInFlight(s', key) {
      if key != e.key && CurrentInFlight(s, key) {
        var t :| t in s.sending && s.sending[t] == (key, s.published[key]);
        assert s'.sending[t] == (key, s'.published[key]);
      }
    }
    forall pid | pid in s'.pipes && pid !in s'.owed ensures InSync(s', s'.workers[pid]) {
      forall key: Name ensures InSyncAt(s', Eventual(s'.workers[pid]), key) {
        assert InSyncAt(s, Eventual(s.workers[pid]), key);
      }
    }
  }

  /** Sending in turn leaves the published state in flight unless it is the state sent. */
  lemma SendKeepsFlights(s: System, e: Event, key: Name)
    requires e.Send? && Step(s, e).Some? && InTurn(s, e.tid) && key in s.published
    ensures var sent := s.sending[e.tid];
            sent != (key, s.published[key]) && (CurrentInFlight(s, key) || sent.0 == key) ==>
              CurrentInFlight(Step(s, e).value, key)
  {
    var s' := Step(s, e).value;
    var sent := s.sending[e.tid];
    if sent != (key, s.published[key]) && (CurrentInFlight(s, key) || sent.0 == key) {
      var t :| t in s.sending && t != e.tid && s.sending[t] == (key, s.published[key]);
      assert t in s'.sending && s'.sending[t] == (key, s'.published[key]);
    }
  }

  lemma SendReaches(s: System, e: Event, pid: Pid)
    requires e.Send? && Step(s, e).Some? && pid in s.workers
    ensures var before, sent := Eventual(s.workers[pid]), s.sending[e.tid];
            Eventual(Step(s, e).value.workers[pid]) ==
            if s.hook && pid in s.pipes then before[sent.0 := sent.1] else before
  {
    EventualPost(s.workers[pid], [s.sending[e.tid]]);
    ApplyOne(Eventual(s.workers[pid]), s.sending[e.tid]);
  }

  lemma SendKeepsSync(s: System, e: Event, replica: Upstreams, key: Name)
    requires e.Send? && Step(s, e).Some? && InTurn(s, e.tid) && s.sending[e.tid].0 in s.published
    requires InSyncAt(s, replica, key)
    ensures InSyncAt(Step(s, e).value, replica[s.sending[e.tid].0 := s.sending[e.tid].1], key)
  {
    if key in s.published {
      SendKeepsFlights(s, e, key);
    }
  }

  lemma SendKeepsWorker(s: System, e: Event, pid: Pid)
    requires e.Send? && Step(s, e).Some? && InTurn(s, e.tid) && s.sending[e.tid].0 in s.published
    requires pid in s.pipes && pid in s.workers && s.hook && InSync(s, s.workers[pid])
    ensures InSync(Step(s, e).value, Step(s, e).value.workers[pid])
  {
    var s' := Step(s, e).value;
    SendReaches(s, e, pid);
    forall key: Name ensures InSyncAt(s', Eventual(s'.workers[pid]), key) {
      assert InSyncAt(s, Eventual(s.workers[pid]), key);
      SendKeepsSync(s, e, Eventual(s.workers[pid]), key);
    }
  }

  lemma SendKeepsInv(s: System, e: Event)
    requires Inv(s) && e.Send? && Step(s, e).Some? && InTurn(s, e.tid)
    ensures Inv(Step(s, e).value)
  {
    var s' := Step(s, e).value;
    forall pid | pid in s'.workers ensures Eventual(s'.workers[pid]).Keys <= s'.published.Keys {
      SendReaches(s, e, pid);
    }
    forall pid | pid in s'.pipes && pid !in s'.owed ensures InSync(s', s'.workers[pid]) {
      SendKeepsWorker(s, e, pid);
    }
  }

  lemma DumpKeepsInv(s: System, e: Event)
    requires Inv(s) && (e.SendAll? || e.Resend?) && Step(s, e).Some?
    ensures Inv(Step(s, e).value)
  {
    var s' := Step(s, e).value;
    var clients := if e.SendAll? then s.pipes else e.clients;
    forall pid | pid in clients ensures Eventual(s'.workers[pid]) == s.published {
      EventualPost(s.workers[pid], e.dump);
      DumpRepairs(Eventual(s.workers[pid]), e.dump, s.published);
      DumpRepairs(s.published, e.dump, s.published);
    }
    SameFlights(s, s');
    forall pid | pid in s'.pipes && pid !in s'.owed ensures InSync(s', s'.workers[pid]) {
      forall key: Name ensures InSyncAt(s', Eventual(s'.workers[pid]), key) {
        assert pid !in clients ==> InSyncAt(s, Eventual(s.workers[pid]), key);
      }
    }
  }

  lemma SameFlights(s: System, s': System)
    requires s'.sending == s.sending && s'.published == s.published
    ensures forall key: Name :: CurrentInFlight(s, key) <==> CurrentInFlight(s', key)
  {
  }

  lemma OthersKeepInv(s: System, e: Event)
    requires Inv(s) && !e.Rebuilt? && !e.Send? && !e.SendAll? && !e.Resend? && Step(s, e).Some?
    ensures Inv(Step(s, e).value)
  {
    var s' := Step(s, e).value;
    SameFlights(s, s');
    if e.Deliver? {
      DrainHead(s.workers[e.pid].replica, s.workers[e.pid].inbox);
    }
    forall pid | pid in s'.pipes && pid !in s'.owed ensures InSync(s', s'.workers[pid]) {
      assert pid in s.pipes && InSync(s, s.workers[pid]);
      forall key: Name ensures InSyncAt(s', Eventual(s'.workers[pid]), key) {
        assert InSyncAt(s, Eventual(s.workers[pid]), key);
      }
    }
  }

  lemma StepKeepsInv(s: System, e: Event)
    requires Inv(s) && Step(s, e).Some? && (e.Send? ==> InTurn(s, e.tid))
    ensures Inv(Step(s, e).value)
  {
    if e.Rebuilt? {
      RebuiltKeepsInv(s, e);
    } else if e.Send? {
      SendKeepsInv(s, e);
    } else if e.SendAll? || e.Resend? {
      DumpKeepsInv(s, e);
    } else {
      OthersKeepInv(s, e);
    }
  }

  /** The condition on a step is exact: a send out of turn puts every dumped worker out of sync. */
  lemma SendOutOfTurnBreaksSync(s: System, t: Tid, pid: Pid)
    requires Inv(s) && t in s.sending && !InTurn(s, t) && pid in s.pipes && pid !in s.owed
    ensures !InSync(Step(s, Send(t)).value, Step(s, Send(t)).value.workers[pid])
  {
    var s' := Step(s, Send(t)).value;
    var (key, upstream) := s.sending[t];
    EventualPost(s.workers[pid], [s.sending[t]]);
    ApplyOne(Eventual(s.workers[pid]), s.sending[t]);
    assert !Agree(Eventual(s'.workers[pid]), s'.published, key);
    assert !CurrentInFlight(s', key);
    assert !InSyncAt(s', Eventual(s'.workers[pid]), key);
  }

  lemma {:induction false} RunKeepsInv(s: System, run: seq<Event>)
    requires Inv(s) && History(s, run).Some? && Ordered(s, run)
    ensures Inv(History(s, run).value)
  {
    if run != [] {
      var n := |run| - 1;
      RunKeepsInv(s, run[..n]);
      StepKeepsInv(History(s, run[..n]).value, run[n]);
    }
  }

  /** In every run that sends in turn: once a registered worker has been sent a full dump, its
      replica, with what is already in its pipe, agrees with the master on every upstream whose
      published state no thread is about to send; and with nothing to send and nothing in the pipe
      the two are equal. */
  lemma ReplicaAgreement(run: seq<Event>, pid: Pid)
    requires History(START, run).Some? && Ordered(START, run)
    requires var s := History(START, run).value; pid in s.pipes && pid !in s.owed
    ensures var s := History(START, run).value;
            && pid in s.workers
            && InSync(s, s.workers[pid])
            && (s.sending == map[] && s.workers[pid].inbox == [] ==> s.workers[pid].replica == s.published)
  {
    assert Inv(START);
    RunKeepsInv(START, run);
    var s := History(START, run).value;
    var w := s.workers[pid];
    if s.sending == map[] && w.inbox == [] {
      assert Eventual(w) == w.replica;
      forall key: Name ensures Agree(w.replica, s.published, key) {
        assert InSyncAt(s, Eventual(w), key);
      }
      assert w.replica.Keys == s.published.Keys by {
        forall key: Name ensures key in w.replica <==> key in s.published {
          assert Agree(w.replica, s.published, key);
        }
      }
      assert forall key | key in s.published :: Agree(w.replica, s.published, key);
    }
  }

  /******* Serial runs *******/

  ghost predicate SendsAreCurrent(s: System) {
    && (forall t | t in s.sending :: s.sending[t].0 in s.published && s.published[s.sending[t].0] == s.sending[t].1)
    && (forall t, u | t in s.sending && u in s.sending && t != u :: s.sending[t].0 != s.sending[u].0)
  }

  lemma SerialStepKeepsCurrent(s: System, e: Event)
    requires SendsAreCurrent(s) && Step(s, e).Some? && (e.Rebuilt? ==> !InFlight(s, e.key))
    ensures SendsAreCurrent(Step(s, e).value)
  {
    var s' := Step(s, e).value;
    forall t | t in s.sending && t in s'.sending && !(e.Rebuilt? && e.tid == t)
      ensures s'.sending[t] == s.sending[t] && (e.Rebuilt? ==> s.sending[t].0 != e.key)
    {
    }
  }

  /** Serial runs send in turn; the converse fails for overlapping updates sent in the order they
      were published in. */
  lemma {:induction false} SerialIsOrdered(s: System, run: seq<Event>)
    requires SendsAreCurrent(s) && Serial(s, run) && History(s, run).Some?
    ensures Ordered(s, run) && SendsAreCurrent(History(s, run).value)
  {
    if run != [] {
      var n := |run| - 1;
      SerialIsOrdered(s, run[..n]);
      SerialStepKeepsCurrent(History(s, run[..n]).value, run[n]);
    }
  }

  /******* What a snapshot is worth before the dump *******/

  lemma AgreementPersists(s: System, e: Event, pid: Pid, key: Name)
    requires Inv(s) && SendsAreCurrent(s) && Step(s, e).Some? && pid in s.workers
    requires Agree(Eventual(s.workers[pid]), s.published, key)
    requires !(e.Rebuilt? && e.key == key) && e != Die(pid)
    ensures var s' := Step(s, e).value;
            pid in s'.workers && Agree(Eventual(s'.workers[pid]), s'.published, key)
  {
    var s' := Step(s, e).value;
    var w := s.workers[pid];
    match e {
      case Send(t) => SendReaches(s, e, pid);
      case SendAll(dump) =>
        EventualPost(w, dump);
        DumpRepairs(Eventual(w), dump, s.published);
      case Resend(clients, dump) =>
        EventualPost(w, dump);
        DumpRepairs(Eventual(w), dump, s.published);
        DumpRepairs(s.published, dump, s.published);
      case Deliver(_) =>
        if e.pid == pid {
          DrainHead(w.replica, w.inbox);
        }
      case _ =>
    }
  }

  lemma {:induction false} AgreementPersistsOverRun(s: System, run: seq<Event>, pid: Pid, key: Name)
    requires Inv(s) && SendsAreCurrent(s) && History(s, run).Some? && Serial(s, run) && pid in s.workers
    requires Agree(Eventual(s.workers[pid]), s.published, key)
    requires forall e | e in run :: !(e.Rebuilt? && e.key == key) && e != Die(pid)
    ensures var end := History(s, run).value;
            pid in end.workers && Agree(Eventual(end.workers[pid]), end.published, key)
  {
    if run != [] {
      var n := |run| - 1;
      assert forall e | e in run[..n] :: e in run;
      AgreementPersistsOverRun(s, run[..n], pid, key);
      SerialIsOrdered(s, run[..n]);
      RunKeepsInv(s, run[..n]);
      assert run[n] in run;
      AgreementPersists(History(s, run[..n]).value, run[n], pid, key);
    }
  }

  /** A worker forked at any point of a serial run is, even before its first dump, behind on an
      upstream only if that upstream was rebuilt after its snapshot. */
  lemma SnapshotHolds(before: seq<Event>, pid: Pid, run: seq<Event>, key: Name)
    requires History(START, before).Some? && Serial(START, before)
    requires Step(History(START, before).value, Fork(pid)).Some?
    requires var s := Step(History(START, before).value, Fork(pid)).value;
             History(s, run).Some? && Serial(s, run)
    requires forall e | e in run :: !(e.Rebuilt? && e.key == key) && e != Die(pid)
    ensures var end := History(Step(History(START, before).value, Fork(pid)).value, run).value;
            pid in end.workers && Agree(Eventual(end.workers[pid]), end.published, key)
  {
    assert Inv(START);
    SerialIsOrdered(START, before);
    RunKeepsInv(START, before);
    var s0 := History(START, before).value;
    StepKeepsInv(s0, Fork(pid));
    AgreementPersistsOverRun(Step(s0, Fork(pid)).value, run, pid, key);
  }

  /******* Any run at all *******/

  /** The value a message gives for the key, if it names it. */
  function Said(message: Message, key: Name): Option<Upstream> {
    if message == [] then None
    else
      var last := message[|message| - 1];
      if last.0 == key then Some(last.1) else Said(message[..|message| - 1], key)
  }

  function LastRebuilt(run: seq<Event>, key: Name): Option<Upstream> {
    if run == [] then None
    else
      var e := run[|run| - 1];
      if e.Rebuilt? && e.key == key then Some(e.upstream) else LastRebuilt(run[..|run| - 1], key)
  }

  /** The last update the thread has rebuilt. */
  function LastBy(run: seq<Event>, t: Tid): Option<(Name, Upstream)> {
    if run == [] then None
    else
      var e := run[|run| - 1];
      if e.Rebuilt? && e.tid == t then Some((e.key, e.upstream)) else LastBy(run[..|run| - 1], t)
  }

  /** It was the first of all rebuilds of its upstream. */
  predicate BeganIt(run: seq<Event>, t: Tid) {
    run != [] &&
    var n := |run| - 1;
    if run[n].Rebuilt? && run[n].tid == t then LastRebuilt(run[..n], run[n].key).None? else BeganIt(run[..n], t)
  }

  /** What the thread sends: a thread that began an upstream sends it as last rebuilt by anyone, any
      other its own update. */
  function Holds(run: seq<Event>, t: Tid): Option<(Name, Upstream)> {
    match LastBy(run, t)
    case None => None
    case Some(own) =>
      var last := LastRebuilt(run, own.0);
      if BeganIt(run, t) && last.Some? then Some((own.0, last.value)) else Some(own)
  }

  predicate PipeOpen(run: seq<Event>, pid: Pid) {
    run != [] &&
    var e := run[|run| - 1];
    e == Register(pid) || (e != Die(pid) && PipeOpen(run[..|run| - 1], pid))
  }

  /** What the worker was last told about the key, by its snapshot, an update or a dump. */
  function Told(run: seq<Event>, pid: Pid, key: Name): Option<Upstream> {
    if run == [] then None
    else
      var n := |run| - 1;
      var before := run[..n];
      match run[n]
      case Fork(p) => if p == pid then LastRebuilt(before, key) else Told(before, pid, key)
      case Send(t) =>
        var update := Holds(before, t);
        if InstallHook in before && PipeOpen(before, pid) && update.Some? && update.value.0 == key
        then Some(update.value.1)
        else Told(before, pid, key)
      case SendAll(dump) =>
        if PipeOpen(before, pid) && Said(dump, key).Some? then Said(dump, key) else Told(before, pid, key)
      case Resend(clients, dump) =>
        if pid in clients && Said(dump, key).Some? then Said(dump, key) else Told(before, pid, key)
      case _ => Told(before, pid, key)
  }

  function Get(m: Upstreams, key: Name): Option<Upstream> {
    if key in m then Some(m[key]) else None
  }

  lemma {:induction false} ApplySaid(replica: Upstreams, message: Message, key: Name)
    ensures Get(Apply(replica, message), key) ==
            if Said(message, key).Some? then Said(message, key) else Get(replica, key)
  {
    if message != [] {
      ApplySaid(replica, message[..|message| - 1], key);
    }
  }

  /** The state after a run, told from its events alone. */
  ghost predicate Tells(run: seq<Event>, s: System) {
    && (forall t | t in s.sending :: Holds(run, t) == Some(s.sending[t]))
    && (forall t | t in s.sending :: t in s.shared <==> BeganIt(run, t))
    && (s.hook <==> InstallHook in run)
    && (forall pid | pid in s.pipes :: pid in s.workers)
    && (forall pid :: pid in s.pipes <==> PipeOpen(run, pid))
    && (forall key: Name :: Get(s.published, key) == LastRebuilt(run, key))
  }

  lemma HoldsMore(run: seq<Event>, e: Event, s: System, t: Tid)
    requires Tells(run, s) && Step(s, e).Some? && t in Step(s, e).value.sending
    ensures Holds(run + [e], t) == Some(Step(s, e).value.sending[t])
    ensures t in Step(s, e).value.shared <==> BeganIt(run + [e], t)
  {
    var more := run + [e];
    assert more[..|run|] == run && more[|run|] == e;
    if e.Rebuilt? {
      assert Get(s.published, e.key) == LastRebuilt(run, e.key);
    }
    if t in s.sending {
      assert Holds(run, t) == Some(s.sending[t]) && (t in s.shared <==> BeganIt(run, t));
    }
  }

  lemma TellsMore(run: seq<Event>, e: Event, s: System)
    requires Tells(run, s) && Step(s, e).Some?
    ensures Tells(run + [e], Step(s, e).value)
  {
    var more, s' := run + [e], Step(s, e).value;
    assert more[..|run|] == run && more[|run|] == e;
    forall t | t in s'.sending
      ensures Holds(more, t) == Some(s'.sending[t]) && (t in s'.shared <==> BeganIt(more, t))
    {
      HoldsMore(run, e, s, t);
    }
    forall pid ensures pid in s'.pipes <==> PipeOpen(more, pid) {
      assert pid in s.pipes <==> PipeOpen(run, pid);
    }
    forall key: Name ensures Get(s'.published, key) == LastRebuilt(more, key) {
      assert Get(s.published, key) == LastRebuilt(run, key);
    }
  }

  lemma {:induction false} EventsTellState(run: seq<Event>)
    requires History(START, run).Some?
    ensures Tells(run, History(START, run).value)
  {
    if run != [] {
      var n := |run| - 1;
      EventsTellState(run[..n]);
      TellsMore(run[..n], run[n], History(START, run[..n]).value);
      assert run == run[..n] + [run[n]];
    }
  }

  /** What one step does to what a living worker will hold. */
  lemma StepTells(s: System, e: Event, pid: Pid, key: Name)
    requires Step(s, e).Some? && pid in s.workers && pid in Step(s, e).value.workers
    ensures var before, after := Eventual(s.workers[pid]), Eventual(Step(s, e).value.workers[pid]);
            if e.Send? then
              after == if s.hook && pid in s.pipes then before[s.sending[e.tid].0 := s.sending[e.tid].1] else before
            else if e.SendAll? || e.Resend? then
              Get(after, key) == if pid in (if e.SendAll? then s.pipes else e.clients) && Said(e.dump, key).Some?
                                 then Said(e.dump, key) else Get(before, key)
            else after == before
  {
    var w := s.workers[pid];
    match e {
      case Send(t) => SendReaches(s, e, pid);
      case SendAll(dump) =>
        EventualPost(w, dump);
        ApplySaid(Eventual(w), dump, key);
      case Resend(clients, dump) =>
        EventualPost(w, dump);
        ApplySaid(Eventual(w), dump, key);
        ApplySaid(Apply(Eventual(w), dump), dump, key);
      case Deliver(p) =>
        if p == pid {
          DrainHead(w.replica, w.inbox);
        }
      case _ =>
    }
  }

  /** How many messages one step puts into a living worker's pipe, or takes out of it: an update or a full
      send puts one into every open pipe, a round two into each of its clients' pipes. */
  lemma StepPosts(s: System, e: Event, pid: Pid)
    requires Step(s, e).Some? && pid in s.workers && pid in Step(s, e).value.workers
    ensures var before, after := s.workers[pid].inbox, Step(s, e).value.workers[pid].inbox;
            if e.Send? then before <= after && |after| == |before| + (if s.hook && pid in s.pipes then 1 else 0)
            else if e.SendAll? then before <= after && |after| == |before| + (if pid in s.pipes then 1 else 0)
            else if e.Resend? then before <= after && |after| == |before| + (if pid in e.clients then 2 else 0)
            else if e == Deliver(pid) then before != [] && after == before[1..]
            else after == before
  {
  }

  /** One more event changes what was told as it changes what the worker will hold. */
  lemma ToldMore(run: seq<Event>, e: Event, s: System, pid: Pid, key: Name)
    requires Tells(run, s) && Step(s, e).Some? && pid in Step(s, e).value.workers
    requires pid in s.workers ==> Get(Eventual(s.workers[pid]), key) == Told(run, pid, key)
    ensures Get(Eventual(Step(s, e).value.workers[pid]), key) == Told(run + [e], pid, key)
  {
    var more := run + [e];
    assert more[..|run|] == run && more[|run|] == e;
    assert Get(s.published, key) == LastRebuilt(run, key);
    assert pid in s.pipes <==> PipeOpen(run, pid);
    if pid in s.workers {
      StepTells(s, e, pid, key);
      if e.Send? {
        assert Holds(run, e.tid) == Some(s.sending[e.tid]);
      }
    }
  }

  /** In any run, ordered or not, a worker holds exactly what it was last told. */
  lemma {:induction false} WorkerHoldsWhatItWasTold(run: seq<Event>, pid: Pid, key: Name)
    requires History(START, run).Some? && pid in History(START, run).value.workers
    ensures Get(Eventual(History(START, run).value.workers[pid]), key) == Told(run, pid, key)
  {
    if run != [] {
      var n := |run| - 1;
      var s := History(START, run[..n]).value;
      EventsTellState(run[..n]);
      if pid in s.workers {
        WorkerHoldsWhatItWasTold(run[..n], pid, key);
      }
      ToldMore(run[..n], run[n], s, pid, key);
      assert run == run[..n] + [run[n]];
    }
  }

  /** The exact condition, for any run: a worker with an empty pipe agrees with the master on an
      upstream if and only if the last thing it was told about it is its last rebuild. */
  lemma AgreementExactly(run: seq<Event>, pid: Pid, key: Name)
    requires History(START, run).Some? && pid in History(START, run).value.workers
    requires History(START, run).value.workers[pid].inbox == []
    ensures var s := History(START, run).value;
            Agree(s.workers[pid].replica, s.published, key) <==> Told(run, pid, key) == LastRebuilt(run, key)
  {
    var s := History(START, run).value;
    WorkerHoldsWhatItWasTold(run, pid, key);
    EventsTellState(run);
    assert Get(s.published, key) == LastRebuilt(run, key);
    assert Eventual(s.workers[pid]) == s.workers[pid].replica;
  }

  /** Serial runs meet it, for every worker that was sent a dump, once nothing is left to send. */
  lemma SerialTellsTheLast(run: seq<Event>, pid: Pid, key: Name)
    requires History(START, run).Some? && Serial(START, run)
    requires var s := History(START, run).value; pid in s.pipes && pid !in s.owed && s.sending == map[]
    ensures Told(run, pid, key) == LastRebuilt(run, key)
  {
    var s := History(START, run).value;
    SerialIsOrdered(START, run);
    ReplicaAgreement(run, pid);
    WorkerHoldsWhatItWasTold(run, pid, key);
    EventsTellState(run);
    assert Get(s.published, key) == LastRebuilt(run, key);
    assert InSyncAt(s, Eventual(s.workers[pid]), key);
  }

  /******* Updates sent out of turn *******/

  /** Two overlapping updates of one upstream, published in one order and sent in the other. */
  function Overlap(pid: Pid, key: Name, older: Upstream, newer: Upstream): seq<Event> {
    [Rebuilt(1, key, older), Rebuilt(2, key, newer), Send(2), Send(1), Deliver(pid), Deliver(pid)]
  }

  /** Nothing to send or deliver, and one worker. */
  predicate Quiet(s: System, pid: Pid) {
    s.sending == map[] && s.pipes == {pid} && s.workers.Keys == {pid} && s.workers[pid].inbox == []
  }

  /** If the master knew the upstream before, the worker keeps the older update for good. */
  lemma OverlappingSendsDiverge(s: System, pid: Pid, key: Name, older: Upstream, newer: Upstream)
    requires s.hook && Quiet(s, pid) && key in s.published && older != newer
    ensures History(s, Overlap(pid, key, older, newer)).Some?
    ensures var end := History(s, Overlap(pid, key, older, newer)).value;
            && Quiet(end, pid) && !Agree(end.workers[pid].replica, end.published, key)
            && Get(end.published, key) == Some(newer) && Get(end.workers[pid].replica, key) == Some(older)
  {
    OverlappingSends(s, pid, key, older, newer);
  }

  /** If it did not, the first of the two threads sends the published object as the second one has
      updated it, and worker and master agree. */
  lemma FirstUpdateCannotBeOvertaken(s: System, pid: Pid, key: Name, older: Upstream, newer: Upstream)
    requires s.hook && Quiet(s, pid) && key !in s.published
    ensures History(s, Overlap(pid, key, older, newer)).Some?
    ensures var end := History(s, Overlap(pid, key, older, newer)).value;
            && Quiet(end, pid) && Agree(end.workers[pid].replica, end.published, key)
            && Get(end.workers[pid].replica, key) == Some(newer)
  {
    OverlappingSends(s, pid, key, older, newer);
  }

  lemma OverlappingSends(s: System, pid: Pid, key: Name, older: Upstream, newer: Upstream)
    requires s.hook && Quiet(s, pid)
    ensures History(s, Overlap(pid, key, older, newer)).Some?
    ensures var end := History(s, Overlap(pid, key, older, newer)).value;
            && Quiet(end, pid) && Get(end.published, key) == Some(newer)
            && Get(end.workers[pid].replica, key) == Some(if key in s.published then older else newer)
  {
    var late := (key, if key in s.published then older else newer);
    var es := Overlap(pid, key, older, newer);
    OverlapSent(s, pid, key, older, newer);
    var s4 := History(s, es[..4]).value;
    TwoDelivered(s4, pid, [(key, newer)], [late]);
    HistoryTwoMore(s, es[..4], es[4], es[5]);
    assert es == es[..4] + [es[4], es[5]];
    ApplyOne(Apply(s.workers[pid].replica, [(key, newer)]), late);
  }

  lemma OverlapSent(s: System, pid: Pid, key: Name, older: Upstream, newer: Upstream)
    requires s.hook && Quiet(s, pid)
    ensures var late := (key, if key in s.published then older else newer);
            var s4 := History(s, Overlap(pid, key, older, newer)[..4]);
            && s4.Some? && s4.value.sending == map[] && s4.value.pipes == {pid}
            && s4.value.published == s.published[key := newer]
            && s4.value.workers == map[pid := Worker(s.workers[pid].replica, [[(key, newer)], [late]])]
  {
    var late := (key, if key in s.published then older else newer);
    var es := Overlap(pid, key, older, newer);
    TwoRebuilt(s, key, older, newer);
    HistoryTwoMore(s, [], es[0], es[1]);
    assert [] + [es[0], es[1]] == es[..2];
    TwoSent(Steps2(s, es[0], es[1]).value, pid, late, (key, newer));
    HistoryTwoMore(s, es[..2], es[2], es[3]);
    assert es[..4] == es[..2] + [es[2], es[3]];
  }

  function Steps2(s: System, e: Event, f: Event): Option<System> {
    match Step(s, e)
    case None => None
    case Some(t) => Step(t, f)
  }

  lemma TwoRebuilt(s: System, key: Name, older: Upstream, newer: Upstream)
    requires s.sending == map[]
    ensures var s2 := Steps2(s, Rebuilt(1, key, older), Rebuilt(2, key, newer));
            var late := (key, if key in s.published then older else newer);
            && s2.Some? && s2.value.sending == map[1 := late, 2 := (key, newer)]
            && s2.value == s.(published := s.published[key := newer], sending := s2.value.sending,
                              shared := s2.value.shared)
  {
    assert s.published[key := older][key := newer] == s.published[key := newer];
    var s1 := Step(s, Rebuilt(1, key, older)).value;
    assert s1.sending == map[1 := (key, older)];
    assert 1 in s1.shared <==> key !in s.published;
  }

  lemma TwoSent(s: System, pid: Pid, one: (Name, Upstream), two: (Name, Upstream))
    requires s.hook && s.sending == map[1 := one, 2 := two]
    requires s.pipes == {pid} && s.workers.Keys == {pid} && s.workers[pid].inbox == []
    ensures Steps2(s, Send(2), Send(1)) ==
            Some(s.(sending := map[], shared := s.shared - {2} - {1},
                    workers := map[pid := Worker(s.workers[pid].replica, [[two], [one]])]))
  {
    var w := s.workers[pid];
    var s1 := Step(s, Send(2)).value;
    assert Post(w, [[two]]) == Worker(w.replica, [[two]]);
    assert s1.workers == map[pid := Worker(w.replica, [[two]])];
    assert s1.sending == map[1 := one];
    assert Post(s1.workers[pid], [[one]]) == Worker(w.replica, [[two], [one]]);
    assert Broadcast(s1.workers, s1.pipes, [[one]]) == map[pid := Worker(w.replica, [[two], [one]])];
    assert s1.sending - {1} == map[];
  }

  lemma TwoDelivered(s: System, pid: Pid, m: Message, n: Message)
    requires s.workers.Keys == {pid} && s.workers[pid].inbox == [m, n]
    ensures Steps2(s, Deliver(pid), Deliver(pid)) ==
            Some(s.(workers := map[pid := Worker(Apply(Apply(s.workers[pid].replica, m), n), [])]))
  {
    var s1 := Step(s, Deliver(pid)).value;
    assert [m, n][1..] == [n] && [n][1..] == [];
    assert s1.workers[pid] == Worker(Apply(s.workers[pid].replica, m), [n]);
    var s2 := Step(s1, Deliver(pid)).value;
    assert s2.workers == map[pid := Worker(Apply(Apply(s.workers[pid].replica, m), n), [])];
  }

  lemma HistoryTwoMore(s: System, run: seq<Event>, e: Event, f: Event)
    requires History(s, run).Some? && Steps2(History(s, run).value, e, f).Some?
    ensures History(s, run + [e, f]) == Steps2(History(s, run).value, e, f)
  {
    HistoryMore(s, run, e);
    HistoryMore(s, run + [e], f);
    assert run + [e] + [f] == run + [e, f];
  }

  /******* A worker's life *******/

  /** One upstream, one worker: published, forked, registered, sent everything, and reading it; and what
      is left when it dies. */
  lemma WorkerJoins(pid: Pid, key: Name, upstream: Upstream)
    ensures var published := map[key := upstream];
            var told := [Rebuilt(1, key, upstream), Send(1)] + [Fork(pid), Register(pid)]
                        + [InstallHook, SendAll([(key, upstream)])];
            && History(START, told + [Deliver(pid)]) ==
               Some(System(published, map[], {}, true, map[pid := Worker(published, [])], {pid}, {}))
            && History(START, told + [Deliver(pid)] + [Die(pid)]) ==
               Some(System(published, map[], {}, true, map[], {}, {}))
  {
    var told := [Rebuilt(1, key, upstream), Send(1)] + [Fork(pid), Register(pid)]
                + [InstallHook, SendAll([(key, upstream)])];
    WorkerIsTold(pid, key, upstream);
    ReadsAndDies(told, pid, key, upstream);
  }

  lemma ReadsAndDies(told: seq<Event>, pid: Pid, key: Name, upstream: Upstream)
    requires var published := map[key := upstream];
             History(START, told) ==
             Some(System(published, map[], {}, true, map[pid := Worker(published, [[(key, upstream)]])], {pid}, {}))
    ensures var published := map[key := upstream];
            && History(START, told + [Deliver(pid)]) ==
               Some(System(published, map[], {}, true, map[pid := Worker(published, [])], {pid}, {}))
            && History(START, told + [Deliver(pid)] + [Die(pid)]) ==
               Some(System(published, map[], {}, true, map[], {}, {}))
  {
    var published := map[key := upstream];
    HistoryMore(START, told, Deliver(pid));
    DeliverOne(History(START, told).value, pid, key, upstream);
    HistoryMore(START, told + [Deliver(pid)], Die(pid));
    assert map[pid := Worker(published, [])] - {pid} == map[] && {pid} - {pid} == {} && {} - {pid} == {};
  }

  lemma DeliverOne(s: System, pid: Pid, key: Name, upstream: Upstream)
    requires s.workers == map[pid := Worker(map[key := upstream], [[(key, upstream)]])]
    ensures Step(s, Deliver(pid)) == Some(s.(workers := map[pid := Worker(map[key := upstream], [])]))
  {
    var published := map[key := upstream];
    ApplyOne(published, (key, upstream));
    assert published[key := upstream] == published;
    assert [[(key, upstream)]][1..] == [];
    assert s.workers[pid := Worker(published, [])] == map[pid := Worker(published, [])];
  }

  lemma WorkerIsForked(pid: Pid, key: Name, upstream: Upstream)
    ensures var published := map[key := upstream];
            History(START, [Rebuilt(1, key, upstream), Send(1)] + [Fork(pid), Register(pid)]) ==
            Some(System(published, map[], {}, false, map[pid := Worker(published, [])], {pid}, {pid}))
  {
    var published := map[key := upstream];
    var a, s2 := [Rebuilt(1, key, upstream), Send(1)], START.(published := map[key := upstream]);
    PublishOne(key, upstream);
    HistoryTwoMore(START, [], a[0], a[1]);
    assert [] + a == a;
    assert {} + {pid} == {pid} && s2.workers[pid := Worker(published, [])] == map[pid := Worker(published, [])];
    HistoryTwoMore(START, a, Fork(pid), Register(pid));
  }

  lemma WorkerIsTold(pid: Pid, key: Name, upstream: Upstream)
    ensures var published := map[key := upstream];
            History(START, [Rebuilt(1, key, upstream), Send(1)] + [Fork(pid), Register(pid)]
                           + [InstallHook, SendAll([(key, upstream)])]) ==
            Some(System(published, map[], {}, true, map[pid := Worker(published, [[(key, upstream)]])], {pid}, {}))
  {
    var ab := [Rebuilt(1, key, upstream), Send(1)] + [Fork(pid), Register(pid)];
    WorkerIsForked(pid, key, upstream);
    SendsOne(History(START, ab).value, pid, key, upstream);
    HistoryTwoMore(START, ab, InstallHook, SendAll([(key, upstream)]));
  }

  lemma PublishOne(key: Name, upstream: Upstream)
    ensures Steps2(START, Rebuilt(1, key, upstream), Send(1)) == Some(START.(published := map[key := upstream]))
  {
    var s := Step(START, Rebuilt(1, key, upstream)).value;
    assert s.sending == map[1 := (key, upstream)] && s.sending - {1} == map[];
    assert {} + {1} - {1} == {};
  }

  lemma SendsOne(s: System, pid: Pid, key: Name, upstream: Upstream)
    requires s.published == map[key := upstream] && s.workers.Keys == {pid} && s.pipes == {pid} && s.owed == {pid}
    requires s.workers[pid].inbox == []
    ensures Steps2(s, InstallHook, SendAll([(key, upstream)])) ==
            Some(s.(hook := true, owed := {},
                    workers := map[pid := Worker(s.workers[pid].replica, [[(key, upstream)]])]))
  {
    var dump: Message := [(key, upstream)];
    assert dump[0] == (key, upstream);
    assert Names(dump) == {key};
    assert IsDump(dump, s.published);
    assert Post(s.workers[pid], [dump]) == Worker(s.workers[pid].replica, [dump]);
    assert Broadcast(s.workers, s.pipes, [dump]) == map[pid := Worker(s.workers[pid].replica, [dump])];
    assert {pid} - {pid} == {};
  }
}
