/** The start-up barrier: workers count down a shared integer under a lock, the master polls it and
    registers the service only behind it (frontik/process.py, frontik/server.py). */
module Barrier {
  import opened Common

  type Wid = nat

  /** _init_app: initialising, waiting for count_down_lock, holding it, having read the counter for
      `-= 1`, having written it, up. */
  datatype WorkerPc = Initialising | Inited | Holding | HasRead(seen: int) | Wrote | Up | Dead

  /** fork_workers: at the loop head, in the loop, past it, service registered, master_done set, or
      raised. */
  datatype MasterPc = Polling | Checking | Passed | Registered | MasterDone | TimedOut

  datatype State = State(
    counter: int,
    lock: Option<Wid>,
    workers: map<Wid, WorkerPc>,
    counted: set<Wid>,          // workers whose decrement has been written
    master: MasterPc)

  datatype Action =
    | FinishInit(w: Wid)
    | Lock(w: Wid)
    | Read(w: Wid)
    | Write(w: Wid)
    | Unlock(w: Wid)
    | Die(w: Wid)               // a lock held then is never released
    | SeeZero
    | SeePositive
    | Timeout                   // the clock is read after the counter
    | Sleep
    | Register                  // hook, full send, register_service
    | SetMasterDone
    | Restart(w: Wid)           // only the supervisor restarts, after master_done

  /** range(n). */
  function First(n: nat): (ids: set<Wid>)
    ensures forall w: Wid :: w in ids <==> w < n
  {
    if n == 0 then {} else First(n - 1) + {n - 1}
  }

  function Start(n: nat): State {
    State(n, None, map w | w in First(n) :: Initialising, {}, Polling)
  }

  function Put(s: State, w: Wid, pc: WorkerPc): State {
    s.(workers := s.workers[w := pc])
  }

  function WorkerNext(s: State, a: Action): Option<State>
    requires a.FinishInit? || a.Lock? || a.Read? || a.Write? || a.Unlock? || a.Die?
  {
    if a.w !in s.workers then None
    else
      match (a, s.workers[a.w])
      case (FinishInit(w), Initialising) => Some(Put(s, w, Inited))
      case (Lock(w), Inited) => if s.lock.None? then Some(Put(s, w, Holding).(lock := Some(w))) else None
      case (Read(w), Holding) => Some(Put(s, w, HasRead(s.counter)))
      case (Write(w), HasRead(seen)) => Some(Put(s, w, Wrote).(counter := seen - 1, counted := s.counted + {w}))
      case (Unlock(w), Wrote) => Some(Put(s, w, Up).(lock := None))
      case (Die(w), _) => Some(Put(s, w, Dead))
      case _ => None
  }

  function MasterNext(s: State, a: Action): Option<State> {
    match (a, s.master)
    case (SeeZero, Polling) => if s.counter <= 0 then Some(s.(master := Passed)) else None
    case (SeePositive, Polling) => if s.counter > 0 then Some(s.(master := Checking)) else None
    case (Timeout, Checking) => Some(s.(master := TimedOut))
    case (Sleep, Checking) => Some(s.(master := Polling))
    case (Register, Passed) => Some(s.(master := Registered))
    case (SetMasterDone, Registered) => Some(s.(master := MasterDone))
    case (Restart(w), MasterDone) => if w in s.workers then None else Some(Put(s, w, Initialising))
    case _ => None
  }

  function Next(s: State, a: Action): Option<State> {
    if a.FinishInit? || a.Lock? || a.Read? || a.Write? || a.Unlock? || a.Die? then WorkerNext(s, a)
    else MasterNext(s, a)
  }

  function Execute(n: nat, run: seq<Action>): Option<State> {
    if run == [] then Some(Start(n))
    else
      match Execute(n, run[..|run| - 1])
      case None => None
      case Some(s) => Next(s, run[|run| - 1])
  }

  predicate Owns(pc: WorkerPc) {
    pc.Holding? || pc.HasRead? || pc.Wrote?
  }

  predicate Behind(m: MasterPc) {
    m.Passed? || m.Registered? || m.MasterDone?
  }

  predicate Inv(n: nat, s: State) {
    && (forall w | w in s.workers && Owns(s.workers[w]) :: s.lock == Some(w))
    && (s.lock.Some? ==> s.lock.value in s.workers &&
                         (Owns(s.workers[s.lock.value]) || s.workers[s.lock.value].Dead?))
    && First(n) <= s.workers.Keys
    && (forall w | w in s.workers && s.workers[w].HasRead? :: s.workers[w].seen == s.counter)
    && (forall w | w in s.counted :: w in s.workers && (s.workers[w].Wrote? || s.workers[w].Up? || s.workers[w].Dead?))
    && (forall w | w in s.workers && (s.workers[w].Wrote? || s.workers[w].Up?) :: w in s.counted)
    && s.counter == n - |s.counted|
    && (!Behind(s.master) ==> s.counted <= First(n) && s.workers.Keys <= First(n))
    && (Behind(s.master) ==> First(n) <= s.counted)
  }

  lemma {:induction false} FirstSize(n: nat)
    ensures |First(n)| == n
  {
    if n > 0 {
      FirstSize(n - 1);
      assert First(n) == First(n - 1) + {n - 1};
    } else {
      assert First(0) == {};
    }
  }

  lemma SameSize(a: set<Wid>, b: set<Wid>)
    requires a <= b && |a| >= |b|
    ensures a == b
  {
    assert b == a + (b - a);
    assert |b| == |a| + |b - a|;
  }

  lemma WorkerKeepsInv(n: nat, s: State, a: Action)
    requires Inv(n, s)
    requires a.FinishInit? || a.Lock? || a.Read? || a.Write? || a.Unlock? || a.Die?
    requires WorkerNext(s, a).Some?
    ensures Inv(n, WorkerNext(s, a).value)
  {
    if a.Write? {
      assert a.w !in s.counted;
    }
  }

  lemma ZeroMeansAll(n: nat, counted: set<Wid>)
    requires counted <= First(n) && n - |counted| <= 0
    ensures counted == First(n)
  {
    FirstSize(n);
    SameSize(counted, First(n));
  }

  lemma MasterKeepsInv(n: nat, s: State, a: Action)
    requires Inv(n, s) && MasterNext(s, a).Some?
    ensures Inv(n, MasterNext(s, a).value)
  {
    if a.SeeZero? {
      ZeroMeansAll(n, s.counted);
    }
  }

  lemma {:induction false} RunKeepsInv(n: nat, run: seq<Action>)
    requires Execute(n, run).Some?
    ensures Inv(n, Execute(n, run).value)
  {
    if run != [] {
      var k := |run| - 1;
      RunKeepsInv(n, run[..k]);
      var s, a := Execute(n, run[..k]).value, run[k];
      if a.FinishInit? || a.Lock? || a.Read? || a.Write? || a.Unlock? || a.Die? {
        WorkerKeepsInv(n, s, a);
      } else {
        MasterKeepsInv(n, s, a);
      }
    }
  }

  /** A worker reaches its decrement only through the end of its initialisation. */
  lemma {:induction false} CountedWasInited(n: nat, run: seq<Action>, w: Wid)
    requires Execute(n, run).Some?
    ensures PastInit(Execute(n, run).value, w) ==> FinishInit(w) in run
  {
    if run != [] {
      var k := |run| - 1;
      CountedWasInited(n, run[..k], w);
      OnlyInitInits(Execute(n, run[..k]).value, run[k], w);
      assert run == run[..k] + [run[k]];
    }
  }

  predicate PastInit(s: State, w: Wid) {
    w in s.counted || (w in s.workers && !s.workers[w].Initialising? && !s.workers[w].Dead?)
  }

  lemma OnlyInitInits(s: State, a: Action, w: Wid)
    requires Next(s, a).Some?
    ensures PastInit(Next(s, a).value, w) ==> PastInit(s, w) || a == FinishInit(w)
  {
  }

  /** In every interleaving the counter is N less the locked decrements done, and the service is
      registered, and master_done set, only after every one of the N workers finished initialising
      and counted down; after a timeout neither happens. */
  lemma StartUpBarrier(n: nat, run: seq<Action>)
    requires Execute(n, run).Some?
    ensures var s := Execute(n, run).value;
            && s.counter == n - |s.counted|
            && (Behind(s.master) ==> forall w | 0 <= w < n :: w in s.counted && FinishInit(w) in run)
            && (Register in run || SetMasterDone in run ==> Behind(s.master))
            && (Timeout in run ==> Register !in run && SetMasterDone !in run)
  {
    RunKeepsInv(n, run);
    var s := Execute(n, run).value;
    if Behind(s.master) {
      forall w: Wid | w < n ensures w in s.counted && FinishInit(w) in run {
        assert w in First(n);
        CountedWasInited(n, run, w);
      }
    }
    MasterRemembers(n, run);
  }

  predicate IsRegistered(m: MasterPc) {
    m.Registered? || m.MasterDone?
  }

  lemma MasterStep(s: State, a: Action)
    requires Next(s, a).Some?
    ensures var m, m' := s.master, Next(s, a).value.master;
            && (IsRegistered(m') <==> IsRegistered(m) || a.Register? || a.SetMasterDone?)
            && (m'.TimedOut? <==> m.TimedOut? || a.Timeout?)
  {
  }

  lemma {:induction false} MasterRemembers(n: nat, run: seq<Action>)
    requires Execute(n, run).Some?
    ensures var m := Execute(n, run).value.master;
            && (Register in run || SetMasterDone in run <==> IsRegistered(m))
            && (Timeout in run <==> m.TimedOut?)
  {
    if run != [] {
      var k := |run| - 1;
      MasterRemembers(n, run[..k]);
      MasterStep(Execute(n, run[..k]).value, run[k]);
      assert run == run[..k] + [run[k]];
    }
  }

  lemma ExecuteMore(n: nat, run: seq<Action>, a: Action)
    requires Execute(n, run).Some?
    ensures Execute(n, run + [a]) == Next(Execute(n, run).value, a)
  {
    assert (run + [a])[..|run|] == run;
  }

  /** The clock is read after the counter: the start-up can still be given up when the last worker
      has counted down in between. */
  lemma LateTimeout()
    ensures var run := [FinishInit(0)] + [Lock(0)] + [SeePositive] + [Read(0)] + [Write(0)] + [Timeout];
            && Execute(1, run).Some?
            && var end := Execute(1, run).value;
               end.counter == 0 && end.counted == First(1) && end.master.TimedOut?
  {
    ExecuteMore(1, [], FinishInit(0));
    assert [] + [FinishInit(0)] == [FinishInit(0)];
    ExecuteMore(1, [FinishInit(0)], Lock(0));
    ExecuteMore(1, [FinishInit(0)] + [Lock(0)], SeePositive);
    ExecuteMore(1, [FinishInit(0)] + [Lock(0)] + [SeePositive], Read(0));
    ExecuteMore(1, [FinishInit(0)] + [Lock(0)] + [SeePositive] + [Read(0)], Write(0));
    ExecuteMore(1, [FinishInit(0)] + [Lock(0)] + [SeePositive] + [Read(0)] + [Write(0)], Timeout);
  }

  /******* Nothing gets stuck *******/

  predicate NobodyDead(s: State) {
    forall w | w in s.workers :: !s.workers[w].Dead?
  }

  predicate Quiet(actions: seq<Action>) {
    forall a | a in actions :: !a.Die? && !a.Timeout? && !a.Restart?
  }

  function Own(w: Wid, pc: WorkerPc): Action
    requires !pc.Up? && !pc.Dead?
  {
    match pc
    case Initialising => FinishInit(w)
    case Inited => Lock(w)
    case Holding => Read(w)
    case HasRead(_) => Write(w)
    case Wrote => Unlock(w)
  }

  function StepsLeft(pc: WorkerPc): nat {
    match pc
    case Initialising => 5
    case Inited => 4
    case Holding => 3
    case HasRead(_) => 2
    case Wrote => 1
    case _ => 0
  }

  predicate CanGoOn(s: State, w: Wid) {
    w in s.workers && StepsLeft(s.workers[w]) > 0 && (s.lock == None || s.lock == Some(w))
  }

  lemma OwnStepIsPut(n: nat, s: State, w: Wid)
    requires Inv(n, s) && CanGoOn(s, w)
    ensures Next(s, Own(w, s.workers[w])).Some?
    ensures var next := Next(s, Own(w, s.workers[w])).value;
            && next.master == s.master && w in next.workers
            && next.workers == s.workers[w := next.workers[w]]
  {
  }

  lemma OwnStep(n: nat, s: State, w: Wid)
    requires Inv(n, s) && CanGoOn(s, w) && Next(s, Own(w, s.workers[w])).Some?
    requires w in Next(s, Own(w, s.workers[w])).value.workers
    ensures var next := Next(s, Own(w, s.workers[w])).value;
            && StepsLeft(next.workers[w]) == StepsLeft(s.workers[w]) - 1 && !next.workers[w].Dead?
            && (next.lock == None || next.lock == Some(w))
            && (next.workers[w].Up? ==> next.lock == None)
  {
  }

  /** A worker that holds the lock, or finds it free, can count down and give it back. */
  lemma WorkerFinishes(n: nat, run: seq<Action>, w: Wid) returns (rest: seq<Action>)
    requires Execute(n, run).Some? && CanGoOn(Execute(n, run).value, w)
    ensures Quiet(rest) && Execute(n, run + rest).Some?
    ensures var s, end := Execute(n, run).value, Execute(n, run + rest).value;
            end.workers == s.workers[w := Up] && end.lock == None && end.master == s.master
    decreases StepsLeft(Execute(n, run).value.workers[w])
  {
    var s := Execute(n, run).value;
    var a := Own(w, s.workers[w]);
    RunKeepsInv(n, run);
    OwnStepIsPut(n, s, w);
    OwnStep(n, s, w);
    ExecuteMore(n, run, a);
    var t := Execute(n, run + [a]).value;
    if StepsLeft(s.workers[w]) == 1 {
      rest := [a];
      assert t.workers[w].Up?;
    } else {
      var more := WorkerFinishes(n, run + [a], w);
      rest := [a] + more;
      assert run + rest == run + [a] + more;
      assert t.workers[w := Up] == s.workers[w := Up];
    }
  }

  function NotUp(s: State): set<Wid> {
    set w | w in s.workers && !s.workers[w].Up?
  }

  lemma NotUpLess(s: State, s': State, w: Wid)
    requires w in NotUp(s) && s'.workers == s.workers[w := Up]
    ensures |NotUp(s')| < |NotUp(s)|
  {
    assert NotUp(s') == NotUp(s) - {w};
  }

  lemma AllCanCount(n: nat, run: seq<Action>) returns (rest: seq<Action>)
    requires Execute(n, run).Some? && NobodyDead(Execute(n, run).value)
    ensures Quiet(rest) && Execute(n, run + rest).Some?
    ensures var end := Execute(n, run + rest).value;
            (forall w | w in end.workers :: end.workers[w].Up?) && end.master == Execute(n, run).value.master
    decreases |NotUp(Execute(n, run).value)|
  {
    var s := Execute(n, run).value;
    RunKeepsInv(n, run);
    rest := [];
    assert run + rest == run;
    if w :| w in s.workers && !s.workers[w].Up? {
      var next := if s.lock.Some? then s.lock.value else w;
      var one := WorkerFinishes(n, run, next);
      NotUpLess(s, Execute(n, run + one).value, next);
      var more := AllCanCount(n, run + one);
      rest := one + more;
      assert run + rest == run + one + more;
    }
  }

  lemma AllUpMeansZero(n: nat, s: State)
    requires Inv(n, s) && forall w | w in s.workers :: s.workers[w].Up?
    ensures s.counter <= 0
  {
    forall w | w in First(n) ensures w in s.counted {
      assert w in s.workers.Keys;
    }
    FirstSize(n);
    SubsetSize(First(n), s.counted);
  }

  lemma SubsetSize(a: set<Wid>, b: set<Wid>)
    requires a <= b
    ensures |a| <= |b|
  {
    assert b == a + (b - a);
    assert |b| == |a| + |b - a|;
  }

  lemma TwoMore(n: nat, run: seq<Action>, a: Action, b: Action)
    requires Execute(n, run).Some? && Next(Execute(n, run).value, a).Some?
    ensures Execute(n, run + [a, b]) == Next(Next(Execute(n, run).value, a).value, b)
  {
    ExecuteMore(n, run, a);
    ExecuteMore(n, run + [a], b);
    assert run + [a] + [b] == run + [a, b];
  }

  lemma MasterFinishes(n: nat, run: seq<Action>)
    requires Execute(n, run).Some? && Execute(n, run).value.counter <= 0 && Execute(n, run).value.master.Polling?
    ensures var end := Execute(n, run + [SeeZero, Register, SetMasterDone]);
            end.Some? && end.value.master.MasterDone?
  {
    ExecuteMore(n, run, SeeZero);
    TwoMore(n, run + [SeeZero], Register, SetMasterDone);
    assert run + [SeeZero, Register, SetMasterDone] == run + [SeeZero] + [Register, SetMasterDone];
  }

  lemma MasterWakes(n: nat, run: seq<Action>) returns (wake: seq<Action>)
    requires Execute(n, run).Some?
    requires Execute(n, run).value.master.Polling? || Execute(n, run).value.master.Checking?
    ensures Quiet(wake) && Execute(n, run + wake).Some?
    ensures Execute(n, run + wake).value == Execute(n, run).value.(master := Polling)
  {
    if Execute(n, run).value.master.Checking? {
      wake := [Sleep];
      ExecuteMore(n, run, Sleep);
    } else {
      wake := [];
      assert run + wake == run;
    }
  }

  lemma Associates(a: seq<Action>, b: seq<Action>, c: seq<Action>, d: seq<Action>)
    ensures a + (b + c + d) == a + b + c + d
  {
  }

  /** As long as no worker has died and the master has not given up, the start-up can complete from any
      point: the workers count down, the master sees zero, registers and sets master_done. */
  lemma StartUpCanComplete(n: nat, run: seq<Action>) returns (rest: seq<Action>)
    requires Execute(n, run).Some? && NobodyDead(Execute(n, run).value)
    requires Execute(n, run).value.master.Polling? || Execute(n, run).value.master.Checking?
    ensures Quiet(rest) && Execute(n, run + rest).Some? && Execute(n, run + rest).value.master.MasterDone?
  {
    var counting := AllCanCount(n, run);
    var up := run + counting;
    RunKeepsInv(n, up);
    AllUpMeansZero(n, Execute(n, up).value);
    var wake := MasterWakes(n, up);
    MasterFinishes(n, up + wake);
    rest := counting + wake + [SeeZero, Register, SetMasterDone];
    Associates(run, counting, wake, [SeeZero, Register, SetMasterDone]);
  }

  /** A worker id is started again only once the start-up is over, and then whenever it is free; a worker
      can die at any time. */
  lemma RestartsAfterStartUp(n: nat, run: seq<Action>, w: Wid)
    requires Execute(n, run).Some?
    ensures Execute(n, run + [Restart(w)]).Some? <==>
            Execute(n, run).value.master.MasterDone? && w !in Execute(n, run).value.workers
    ensures Execute(n, run + [Die(w)]).Some? <==> w in Execute(n, run).value.workers
  {
    ExecuteMore(n, run, Restart(w));
    ExecuteMore(n, run, Die(w));
  }
}
