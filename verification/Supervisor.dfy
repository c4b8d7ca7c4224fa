/** The master's supervision loop: reaping children, restarting those that failed, and stopping
    when none is left (frontik/process.py). */
module Supervisor {
  import Barrier

  type Pid = int
  type Wid = Barrier.Wid

  /** Signals are delivered between iterations. freshPid: the pid the next fork would return. */
  datatype Event =
    | Exited(pid: Pid, normally: bool, freshPid: Pid)
    | Interrupted
    | Sigterm

  datatype State = State(children: map<Pid, Wid>, pipes: set<Pid>, terminating: bool)

  /** The operating system does not hand out the pid of a living child. */
  predicate Possible(s: State, e: Event) {
    e.Exited? ==> e.freshPid !in s.children || e.freshPid == e.pid
  }

  function Add(s: State, pid: Pid, wid: Wid): State {
    s.(children := s.children[pid := wid], pipes := s.pipes + {pid})
  }

  function Remove(s: State, pid: Pid): State {
    s.(children := s.children - {pid}, pipes := s.pipes - {pid})
  }

  function Handle(s: State, e: Event): State {
    match e
    case Interrupted => s
    case Sigterm => s.(terminating := true)
    case Exited(pid, normally, freshPid) =>
      if pid !in s.children then s
      else if !normally && !s.terminating then Add(Remove(s, pid), freshPid, s.children[pid])
      else Remove(s, pid)
  }

  class WorkerState {
    var children: map<Pid, Wid>
    var writePipes: set<Pid>
    var terminating: bool

    function View(): State
      reads this
    {
      State(children, writePipes, terminating)
    }

    constructor ()
      ensures View() == State(map[], {}, false)
    {
      children, writePipes, terminating := map[], {}, false;
    }

    method StartChild(wid: Wid, pid: Pid)
      modifies this
      ensures View() == Add(old(View()), pid, wid)
    {
      children := children[pid := wid];
      writePipes := writePipes + {pid};
    }

    /** for worker_id in range(num_workers): pids are what the forks return. */
    method StartAll(pids: seq<Pid>)
      requires View() == State(map[], {}, false)
      requires forall i, j | 0 <= i < j < |pids| :: pids[i] != pids[j]
      modifies this
      ensures View() == Started(pids)
    {
      for i := 0 to |pids|
        invariant View() == Started(pids[..i])
      {
        assert pids[..i + 1][..i] == pids[..i];
        StartChild(i, pids[i]);
      }
      assert pids[..|pids|] == pids;
    }

    /** One iteration of the loop, or a signal before it. */
    method Step(e: Event)
      modifies this
      ensures View() == Handle(old(View()), e)
    {
      match e {
        case Interrupted =>
        case Sigterm => terminating := true;
        case Exited(pid, normally, freshPid) =>
          if pid !in children {
            return;
          }
          var wid := children[pid];
          children := children - {pid};
          writePipes := writePipes - {pid};
          if normally {
            return;
          }
          if terminating {
            return;
          }
          StartChild(wid, freshPid);
      }
    }

    /** Events are handled until no child is left. */
    method Supervise(events: seq<Event>) returns (handled: nat)
      modifies this
      ensures handled <= |events|
      ensures View() == HandleAll(old(View()), events[..handled])
      ensures handled < |events| ==> children == map[]
    {
      handled := 0;
      while handled < |events| && children != map[]
        invariant handled <= |events|
        invariant View() == HandleAll(old(View()), events[..handled])
      {
        assert events[..handled + 1][..handled] == events[..handled];
        Step(events[handled]);
        handled := handled + 1;
      }
    }
  }

  function Started(pids: seq<Pid>): State {
    if pids == [] then State(map[], {}, false)
    else Add(Started(pids[..|pids| - 1]), pids[|pids| - 1], |pids| - 1)
  }

  function HandleAll(s: State, events: seq<Event>): State {
    if events == [] then s else Handle(HandleAll(s, events[..|events| - 1]), events[|events| - 1])
  }

  predicate AllPossible(s: State, events: seq<Event>) {
    events == [] ||
    (AllPossible(s, events[..|events| - 1]) && Possible(HandleAll(s, events[..|events| - 1]), events[|events| - 1]))
  }

  /******* What the loop keeps *******/

  function Ids(s: State): set<Wid> {
    set pid | pid in s.children :: s.children[pid]
  }

  predicate Consistent(s: State) {
    && s.children.Keys == s.pipes
    && forall p, q | p in s.children && q in s.children && p != q :: s.children[p] != s.children[q]
  }

  /** Ids whose worker was reaped and not replaced. */
  function Retired(s: State, events: seq<Event>): set<Wid> {
    if events == [] then {}
    else
      var before, e := HandleAll(s, events[..|events| - 1]), events[|events| - 1];
      Retired(s, events[..|events| - 1]) +
      (if e.Exited? && e.pid in before.children && (e.normally || before.terminating)
       then {before.children[e.pid]} else {})
  }

  /** One event: a failed child is replaced under its own id, a child that exited normally or during
      shutdown is not, and nothing else changes. */
  lemma HandleEffect(s: State, e: Event)
    requires Consistent(s) && Possible(s, e)
    ensures Consistent(Handle(s, e))
    ensures e.Exited? && e.pid in s.children ==>
              Ids(Handle(s, e)) == if e.normally || s.terminating then Ids(s) - {s.children[e.pid]} else Ids(s)
    ensures !(e.Exited? && e.pid in s.children) ==> Ids(Handle(s, e)) == Ids(s)
    ensures e.Exited? && e.pid in s.children && !e.normally && !s.terminating ==>
                               e.freshPid in Handle(s, e).children &&
                               Handle(s, e).children[e.freshPid] == s.children[e.pid]
  {
    var t := Handle(s, e);
    if e.Exited? && e.pid in s.children {
      var wid := s.children[e.pid];
      assert forall p | p in t.children && p != e.freshPid :: p in s.children && t.children[p] == s.children[p];
      assert forall p | p in s.children && p != e.pid :: p in t.children && t.children[p] == s.children[p];
      forall w ensures w in Ids(t) <==> (w in Ids(s) && w != wid) || (w == wid && !e.normally && !s.terminating) {
        if w in Ids(s) && w != wid {
          var p :| p in s.children && s.children[p] == w;
          assert t.children[p] == w;
        }
        if w == wid && !e.normally && !s.terminating {
          assert t.children[e.freshPid] == w;
        }
      }
    }
  }

  lemma {:induction false} StartedConsistent(pids: seq<Pid>)
    requires forall i, j | 0 <= i < j < |pids| :: pids[i] != pids[j]
    ensures Consistent(Started(pids)) && Ids(Started(pids)) == Barrier.First(|pids|) && !Started(pids).terminating
    ensures forall p | p in Started(pids).children :: p in pids
  {
    if pids != [] {
      var n := |pids| - 1;
      var s, t := Started(pids[..n]), Started(pids);
      StartedConsistent(pids[..n]);
      assert pids[n] !in s.children;
      forall p | p in s.children ensures t.children[p] == s.children[p] && s.children[p] < n {
        assert s.children[p] in Ids(s);
      }
      forall w ensures w in Ids(t) <==> 0 <= w < |pids| {
        if 0 <= w < n {
          assert w in Ids(s);
          var p :| p in s.children && s.children[p] == w;
          assert t.children[p] == w;
        }
        assert t.children[pids[n]] == n;
      }
    }
  }

  /** In every run: children and pipes have the same pids, ids are distinct, and every one of the
      original ids is either running or retired, never both. */
  lemma {:induction false} IdsAreConserved(pids: seq<Pid>, events: seq<Event>)
    requires forall i, j | 0 <= i < j < |pids| :: pids[i] != pids[j]
    requires AllPossible(Started(pids), events)
    ensures var s := HandleAll(Started(pids), events);
            && Consistent(s)
            && Ids(s) !! Retired(Started(pids), events)
            && Ids(s) + Retired(Started(pids), events) == Barrier.First(|pids|)
    decreases |events|
  {
    if events == [] {
      StartedConsistent(pids);
    } else {
      var n := |events| - 1;
      IdsAreConserved(pids, events[..n]);
      var s := HandleAll(Started(pids), events[..n]);
      HandleEffect(s, events[n]);
      if events[n].Exited? && events[n].pid in s.children {
        assert s.children[events[n].pid] in Ids(s);
      }
    }
  }

  lemma ShutdownStep(s: State, e: Event)
    requires s.terminating
    ensures Handle(s, e).terminating
    ensures |Handle(s, e).children| + (if e.Exited? && e.pid in s.children then 1 else 0) == |s.children|
  {
    if e.Exited? && e.pid in s.children {
      assert Handle(s, e).children.Keys == s.children.Keys - {e.pid};
    }
  }

  /** Exits of processes that were children when they were reaped. */
  function Reaps(s: State, events: seq<Event>): nat {
    if events == [] then 0
    else
      var n := |events| - 1;
      var reaped := events[n].Exited? && events[n].pid in HandleAll(s, events[..n]).children;
      Reaps(s, events[..n]) + (if reaped then 1 else 0)
  }

  /** During shutdown, whatever happens and however children exit: every reap removes one child for
      good, so the loop ends with the reap that makes them as many as there were children. */
  lemma {:induction false} ShutdownEnds(s: State, events: seq<Event>)
    requires s.terminating
    ensures var end := HandleAll(s, events);
            && end.terminating && |end.children| + Reaps(s, events) == |s.children|
            && (end.children == map[] <==> Reaps(s, events) == |s.children|)
  {
    if events != [] {
      var n := |events| - 1;
      ShutdownEnds(s, events[..n]);
      ShutdownStep(HandleAll(s, events[..n]), events[n]);
    }
  }

  lemma {:induction false} HandleConcat(s: State, a: seq<Event>, b: seq<Event>)
    ensures HandleAll(s, a + b) == HandleAll(HandleAll(s, a), b)
    decreases |b|
  {
    if b == [] {
      assert a + b == a;
    } else {
      HandleConcat(s, a, b[..|b| - 1]);
      assert (a + b)[..|a + b| - 1] == a + b[..|b| - 1];
    }
  }

  lemma {:induction false} NoneReplaced(s: State, events: seq<Event>)
    requires s.terminating
    ensures var end := HandleAll(s, events);
            forall pid | pid in end.children :: pid in s.children && end.children[pid] == s.children[pid]
  {
    if events != [] {
      NoneReplaced(s, events[..|events| - 1]);
      ShutdownEnds(s, events[..|events| - 1]);
    }
  }

  /** From a Sigterm on, whatever came before it: no child is started, the children left are those of
      that moment less the ones reaped since, and the loop ends when all of them have been reaped. */
  lemma SigtermEndsTheLoop(s: State, a: seq<Event>, b: seq<Event>)
    ensures var signalled, end := HandleAll(s, a), HandleAll(s, a + [Sigterm] + b);
            && (forall pid | pid in end.children ::
                  pid in signalled.children && end.children[pid] == signalled.children[pid])
            && |end.children| + Reaps(HandleAll(s, a + [Sigterm]), b) == |signalled.children|
            && (end.children == map[] <==> Reaps(HandleAll(s, a + [Sigterm]), b) == |signalled.children|)
  {
    HandleConcat(s, a + [Sigterm], b);
    assert (a + [Sigterm])[..|a|] == a;
    NoneReplaced(HandleAll(s, a + [Sigterm]), b);
    ShutdownEnds(HandleAll(s, a + [Sigterm]), b);
  }

  /** Nothing but a Sigterm begins a shutdown. */
  lemma {:induction false} OnlySigtermTerminates(s: State, events: seq<Event>)
    ensures HandleAll(s, events).terminating <==> s.terminating || Sigterm in events
  {
    if events != [] {
      OnlySigtermTerminates(s, events[..|events| - 1]);
      assert events == events[..|events| - 1] + [events[|events| - 1]];
    }
  }
}
