/** The master's view of upstreams: consul listener threads write per-datacenter caches without a
    lock and rebuild the published upstream under one (frontik/service_discovery.py). */
module Discovery {
  import opened Common

  type Name = string
  type Server = string
  type Config = map<string, string>
  type Tid = int

  /** What a reader of an upstream can observe: its live servers, in no order (both sides shuffle
      them), and its configuration. Upstream.update makes both those of its argument. */
  datatype Upstream = Upstream(config: Config, live: multiset<Server>)

  const EMPTY := Upstream(map[], multiset{})

  /******* Cache keys *******/

  function CacheKey(key: Name, dc: Name): string {
    key + "-" + dc
  }

  predicate EndsWith(s: string, t: string) {
    |t| <= |s| && s[|s| - |t|..] == t
  }

  /** No datacenter's name ends in a dash and another one's name. */
  predicate Unambiguous(names: set<Name>) {
    forall d, e | d in names && e in names :: !EndsWith(d, "-" + e)
  }

  lemma CacheKeyInjective(names: set<Name>, k: Name, d: Name, k': Name, d': Name)
    requires Unambiguous(names) && d in names && d' in names
    requires CacheKey(k, d) == CacheKey(k', d')
    ensures k == k' && d == d'
  {
    var s := CacheKey(k, d);
    SuffixOfKey(k, d, k', d');
    SuffixOfKey(k', d', k, d);
    assert |d| == |d'|;
    assert s[|s| - |d|..] == d && s[|s| - |d'|..] == d';
    assert s[..|s| - |d| - 1] == k && s[..|s| - |d'| - 1] == k';
  }

  lemma SuffixOfKey(k: Name, d: Name, k': Name, d': Name)
    requires CacheKey(k, d) == CacheKey(k', d')
    ensures |d'| < |d| ==> EndsWith(d, "-" + d')
  {
    var s := CacheKey(k, d);
    var t := "-" + d';
    assert s[|s| - |d|..] == d;
    assert s == k' + t && s[|s| - |t|..] == t;
    if |d'| < |d| {
      assert d[|d| - |t|..] == s[|s| - |t|..];
    }
  }

  /** Cache entries of different upstreams or datacenters stay apart for every upstream name
      exactly when the datacenter names are unambiguous. */
  lemma CacheKeysStayApart(names: set<Name>)
    ensures Unambiguous(names) <==>
            forall k: Name, d: Name, k': Name, d': Name ::
              d in names && d' in names && CacheKey(k, d) == CacheKey(k', d') ==> k == k' && d == d'
  {
    if Unambiguous(names) {
      forall k: Name, d: Name, k': Name, d': Name
        | d in names && d' in names && CacheKey(k, d) == CacheKey(k', d')
        ensures k == k' && d == d'
      {
        CacheKeyInjective(names, k, d, k', d');
      }
    } else {
      var d, e :| d in names && e in names && EndsWith(d, "-" + e);
      var x := d[..|d| - |e| - 1];
      assert d == x + ("-" + e);
      assert CacheKey("", d) == CacheKey("-" + x, e);
    }
  }

  lemma NoDashIsEnough(names: set<Name>)
    requires forall d | d in names :: '-' !in d
    ensures Unambiguous(names)
  {
    forall d, e | d in names && e in names ensures !EndsWith(d, "-" + e) {
      if |e| < |d| {
        var t := "-" + e;
        assert d[|d| - |t|..][0] == d[|d| - |t|];
        assert d[|d| - |t|] in d;
        assert t[0] == '-';
      }
    }
  }

  /******* Combining datacenters *******/

  type Caches = map<string, seq<Server>>

  /** _upstreams_servers.get(f'{key}-{dc}'): a missing entry counts like an empty one. */
  function Cached(servers: Caches, key: Name, dc: Name): seq<Server> {
    if CacheKey(key, dc) in servers then servers[CacheKey(key, dc)] else []
  }

  function Combine(servers: Caches, key: Name, dcs: seq<Name>): seq<Server> {
    if dcs == [] then []
    else Combine(servers, key, dcs[..|dcs| - 1]) + Cached(servers, key, dcs[|dcs| - 1])
  }

  function ConfigOf(configs: map<Name, Config>, key: Name): Config {
    if key in configs then configs[key] else map[]
  }

  function Truth(servers: Caches, configs: map<Name, Config>, key: Name, dcs: seq<Name>): Upstream {
    Upstream(ConfigOf(configs, key), multiset(Combine(servers, key, dcs)))
  }

  lemma {:induction false} OtherKeysUnaffected(
    names: set<Name>, servers: Caches, key: Name, dc: Name, report: seq<Server>, other: Name, dcs: seq<Name>)
    requires Unambiguous(names) && dc in names && (forall d | d in dcs :: d in names) && other != key
    ensures Combine(servers[CacheKey(key, dc) := report], other, dcs) == Combine(servers, other, dcs)
  {
    if dcs != [] {
      var n := |dcs| - 1;
      OtherKeysUnaffected(names, servers, key, dc, report, other, dcs[..n]);
      if CacheKey(key, dc) == CacheKey(other, dcs[n]) {
        CacheKeyInjective(names, key, dc, other, dcs[n]);
      }
    }
  }

  /******* The sequential code *******/

  class MasterServiceDiscovery {
    const datacenters: seq<Name>
    const knownUpstreams: set<Name>
    var upstreamsServers: Caches
    var upstreamsConfig: map<Name, Config>
    var upstreams: map<Name, Upstream>

    constructor (datacenters: seq<Name>, knownUpstreams: set<Name>)
      ensures this.datacenters == datacenters && this.knownUpstreams == knownUpstreams
      ensures upstreamsServers == map[] && upstreamsConfig == map[] && upstreams == map[]
    {
      this.datacenters, this.knownUpstreams := datacenters, knownUpstreams;
      upstreamsServers, upstreamsConfig, upstreams := map[], map[], map[];
    }

    method CombineServers(key: Name) returns (all: seq<Server>)
      ensures all == Combine(upstreamsServers, key, datacenters)
    {
      all := [];
      for i := 0 to |datacenters|
        invariant all == Combine(upstreamsServers, key, datacenters[..i])
      {
        assert datacenters[..i + 1][..i] == datacenters[..i];
        var cacheKey := CacheKey(key, datacenters[i]);
        if cacheKey in upstreamsServers && upstreamsServers[cacheKey] != [] {
          all := all + upstreamsServers[cacheKey];
        }
      }
      assert datacenters[..|datacenters|] == datacenters;
    }

    method UpdateUpstreams(key: Name)
      modifies this`upstreams
      ensures upstreams == old(upstreams)[key := Truth(upstreamsServers, upstreamsConfig, key, datacenters)]
    {
      var servers := CombineServers(key);
      upstreams := upstreams[key := Upstream(ConfigOf(upstreamsConfig, key), multiset(servers))];
    }

    /** A consul health report; None when consul returned nothing. */
    method UpdateUpstreamsService(key: Name, report: Option<(Name, seq<Server>)>)
      modifies this`upstreamsServers, this`upstreams
      ensures report.None? ==> upstreamsServers == old(upstreamsServers) && upstreams == old(upstreams)
      ensures report.Some? ==>
                && upstreamsServers == old(upstreamsServers)[CacheKey(key, report.value.0) := report.value.1]
                && upstreams == old(upstreams)[key := Truth(upstreamsServers, upstreamsConfig, key, datacenters)]
    {
      if report.Some? {
        upstreamsServers := upstreamsServers[CacheKey(key, report.value.0) := report.value.1];
        UpdateUpstreams(key);
      }
    }

    /** One batch of consul KV entries: only known upstreams with a value count, and each of them is
        rebuilt with the last value listed for it. */
    method UpdateUpstreamsConfig(values: seq<(Name, Option<Config>)>)
      modifies this`upstreamsConfig, this`upstreams
      ensures upstreamsConfig == Configured(old(upstreamsConfig), values, knownUpstreams)
      ensures forall key | key in Listed(values, knownUpstreams) ::
                key in upstreams && upstreams[key] == Truth(upstreamsServers, upstreamsConfig, key, datacenters)
      ensures upstreams.Keys == old(upstreams.Keys) + Listed(values, knownUpstreams)
      ensures forall key | key in old(upstreams) && key !in Listed(values, knownUpstreams) ::
                upstreams[key] == old(upstreams)[key]
    {
      for i := 0 to |values|
        invariant upstreamsConfig == Configured(old(upstreamsConfig), values[..i], knownUpstreams)
        invariant forall key | key in Listed(values[..i], knownUpstreams) ::
                    key in upstreams && upstreams[key] == Truth(upstreamsServers, upstreamsConfig, key, datacenters)
        invariant upstreams.Keys == old(upstreams.Keys) + Listed(values[..i], knownUpstreams)
        invariant forall key | key in old(upstreams) && key !in Listed(values[..i], knownUpstreams) ::
                    upstreams[key] == old(upstreams)[key]
      {
        assert values[..i + 1][..i] == values[..i];
        if values[i].1.Some? && values[i].0 in knownUpstreams {
          upstreamsConfig := upstreamsConfig[values[i].0 := values[i].1.value];
          UpdateUpstreams(values[i].0);
        }
      }
      assert values[..|values|] == values;
    }
  }

  function Configured(
    configs: map<Name, Config>, values: seq<(Name, Option<Config>)>, known: set<Name>): map<Name, Config>
  {
    if values == [] then configs
    else
      var n := |values| - 1;
      var before := Configured(configs, values[..n], known);
      if values[n].1.Some? && values[n].0 in known then before[values[n].0 := values[n].1.value] else before
  }

  function Listed(values: seq<(Name, Option<Config>)>, known: set<Name>): set<Name> {
    if values == [] then {}
    else
      var n := |values| - 1;
      Listed(values[..n], known) + (if values[n].1.Some? && values[n].0 in known then {values[n].0} else {})
  }

  /** The i-th entry has a value for a known upstream. */
  predicate Counts(values: seq<(Name, Option<Config>)>, known: set<Name>, i: int) {
    0 <= i < |values| && values[i].1.Some? && values[i].0 in known
  }

  /** It is the last such entry for its upstream. */
  ghost predicate CountsLast(values: seq<(Name, Option<Config>)>, known: set<Name>, i: int) {
    && Counts(values, known, i)
    && forall j | i < j :: Counts(values, known, j) ==> values[j].0 != values[i].0
  }

  lemma CountsInit(values: seq<(Name, Option<Config>)>, known: set<Name>, i: int)
    requires values != [] && i < |values| - 1
    ensures Counts(values[..|values| - 1], known, i) <==> Counts(values, known, i)
  {
  }

  /** What a batch does to the configs, told from its entries: the last counting entry of an upstream
      decides its config, whatever it was before. */
  lemma {:induction false} LastEntryWins(
    configs: map<Name, Config>, values: seq<(Name, Option<Config>)>, known: set<Name>, i: int)
    requires CountsLast(values, known, i)
    ensures var after := Configured(configs, values, known);
            values[i].0 in after && after[values[i].0] == values[i].1.value
  {
    var n := |values| - 1;
    if i < n {
      CountsInit(values, known, i);
      forall j | i < j ensures Counts(values[..n], known, j) ==> values[..n][j].0 != values[i].0 {
        if Counts(values[..n], known, j) {
          CountsInit(values, known, j);
        }
      }
      LastEntryWins(configs, values[..n], known, i);
      assert Counts(values, known, n) ==> values[n].0 != values[i].0;
    }
  }

  /** An upstream with no such entry keeps its config, or has none as before. */
  lemma {:induction false} UnlistedKeepsConfig(
    configs: map<Name, Config>, values: seq<(Name, Option<Config>)>, known: set<Name>, key: Name)
    requires forall i :: Counts(values, known, i) ==> values[i].0 != key
    ensures var after := Configured(configs, values, known);
            (key in after <==> key in configs) && (key in configs ==> after[key] == configs[key])
  {
    if values != [] {
      var n := |values| - 1;
      forall i ensures Counts(values[..n], known, i) ==> values[..n][i].0 != key {
        if Counts(values[..n], known, i) {
          CountsInit(values, known, i);
        }
      }
      UnlistedKeepsConfig(configs, values[..n], known, key);
      assert Counts(values, known, n) ==> values[n].0 != key;
    }
  }

  /** Exactly the upstreams with a counting entry are republished. */
  lemma {:induction false} ListedMeansCounting(values: seq<(Name, Option<Config>)>, known: set<Name>, key: Name)
    ensures key in Listed(values, known) <==> exists i :: Counts(values, known, i) && values[i].0 == key
  {
    if values != [] {
      var n := |values| - 1;
      ListedMeansCounting(values[..n], known, key);
      if i :| Counts(values[..n], known, i) && values[..n][i].0 == key {
        CountsInit(values, known, i);
      }
      if i :| Counts(values, known, i) && values[i].0 == key {
        if i < n {
          CountsInit(values, known, i);
        }
      }
      assert values[n].1.Some? && values[n].0 in known ==> Counts(values, known, n);
    }
  }

  /******* The threads *******/

  /** A listener callback: idle, past its cache write and waiting for the lock, or rebuilding under
      the lock. The rebuild reads one datacenter's cache at a time while others may write. */
  datatype Pc =
    | Idle
    | Waiting(key: Name)
    | Reading(key: Name, done: nat, acc: seq<Server>)
    | Ready(key: Name, upstream: Upstream)

  datatype State = State(
    servers: Caches,
    configs: map<Name, Config>,
    published: map<Name, Upstream>,
    lock: Option<Tid>,
    pcs: map<Tid, Pc>)

  datatype Action =
    | Report(tid: Tid, key: Name, dc: Name, report: seq<Server>)
    | Configure(tid: Tid, key: Name, config: Config)
    | Acquire(tid: Tid)
    | ReadDatacenter(tid: Tid)
    | ReadConfig(tid: Tid)
    | Publish(tid: Tid)

  datatype Setup = Setup(dcs: seq<Name>, names: set<Name>)

  /** names: every datacenter a report can come from. */
  predicate ValidSetup(p: Setup) {
    Unambiguous(p.names) && forall d | d in p.dcs :: d in p.names
  }

  function PcOf(s: State, tid: Tid): Pc {
    if tid in s.pcs then s.pcs[tid] else Idle
  }

  function Next(p: Setup, s: State, a: Action): Option<State> {
    var t := a.tid;
    match (a, PcOf(s, t))
    case (Report(_, key, dc, report), Idle) =>
      if dc !in p.names then None
      else Some(s.(servers := s.servers[CacheKey(key, dc) := report], pcs := s.pcs[t := Waiting(key)]))
    case (Configure(_, key, config), Idle) =>
      Some(s.(configs := s.configs[key := config], pcs := s.pcs[t := Waiting(key)]))
    case (Acquire(_), Waiting(key)) =>
      if s.lock.Some? then None else Some(s.(lock := Some(t), pcs := s.pcs[t := Reading(key, 0, [])]))
    case (ReadDatacenter(_), Reading(key, done, acc)) =>
      if done >= |p.dcs| then None
      else Some(s.(pcs := s.pcs[t := Reading(key, done + 1, acc + Cached(s.servers, key, p.dcs[done]))]))
    case (ReadConfig(_), Reading(key, done, acc)) =>
      if done != |p.dcs| then None
      else Some(s.(pcs := s.pcs[t := Ready(key, Upstream(ConfigOf(s.configs, key), multiset(acc)))]))
    case (Publish(_), Ready(key, upstream)) =>
      Some(s.(published := s.published[key := upstream], lock := None, pcs := s.pcs[t := Idle]))
    case _ => None
  }

  /** Runs grow at the end, so that the last report of a run is its last element. */
  function Execute(p: Setup, run: seq<Action>): Option<State> {
    if run == [] then Some(State(map[], map[], map[], None, map[]))
    else
      match Execute(p, run[..|run| - 1])
      case None => None
      case Some(s) => Next(p, s, run[|run| - 1])
  }

  function Published(s: State, key: Name): Upstream {
    if key in s.published then s.published[key] else EMPTY
  }

  /** A thread has written the key's cache and has not begun its rebuild. */
  ghost predicate Waiter(s: State, key: Name) {
    exists t | t in s.pcs :: s.pcs[t] == Waiting(key)
  }

  /** A thread is somewhere between its cache write and the end of its locked rebuild. */
  ghost predicate Busy(s: State, key: Name) {
    exists t | t in s.pcs :: !s.pcs[t].Idle? && s.pcs[t].key == key
  }

  predicate Locked(s: State) {
    && (forall t | t in s.pcs :: s.pcs[t].Reading? || s.pcs[t].Ready? <==> s.lock == Some(t))
    && (s.lock.Some? ==> s.lock.value in s.pcs)
  }

  /** A rebuild in progress is up to date so far, unless another one is sure to follow it. */
  ghost predicate Fresh(p: Setup, s: State, t: Tid)
    requires t in s.pcs
  {
    match s.pcs[t]
    case Reading(key, done, acc) =>
      done <= |p.dcs| && (Waiter(s, key) || acc == Combine(s.servers, key, p.dcs[..done]))
    case Ready(key, upstream) => Waiter(s, key) || upstream == Truth(s.servers, s.configs, key, p.dcs)
    case _ => true
  }

  ghost predicate Settled(p: Setup, s: State, key: Name) {
    Busy(s, key) || Published(s, key) == Truth(s.servers, s.configs, key, p.dcs)
  }

  ghost predicate Inv(p: Setup, s: State) {
    && Locked(s)
    && (forall t | t in s.pcs :: Fresh(p, s, t))
    && (forall key: Name :: Settled(p, s, key))
  }

  lemma WriteKeepsInv(p: Setup, s: State, a: Action)
    requires ValidSetup(p) && Inv(p, s) && (a.Report? || a.Configure?) && Next(p, s, a).Some?
    ensures Inv(p, Next(p, s, a).value)
  {
    var s' := Next(p, s, a).value;
    assert s'.pcs[a.tid] == Waiting(a.key);
    forall key: Name ensures Waiter(s, key) ==> Waiter(s', key) {
      if Waiter(s, key) {
        var t :| t in s.pcs && s.pcs[t] == Waiting(key);
        assert s'.pcs[t] == Waiting(key);
      }
    }
    forall key: Name | key != a.key
      ensures Truth(s'.servers, s'.configs, key, p.dcs) == Truth(s.servers, s.configs, key, p.dcs)
    {
      if a.Report? {
        OtherKeysUnaffected(p.names, s.servers, a.key, a.dc, a.report, key, p.dcs);
      }
    }
    forall t | t in s'.pcs ensures Fresh(p, s', t) {
      if t != a.tid && s.pcs[t].Reading? && s.pcs[t].key != a.key && a.Report? {
        var done := s.pcs[t].done;
        OtherKeysUnaffected(p.names, s.servers, a.key, a.dc, a.report, s.pcs[t].key, p.dcs[..done]);
      }
    }
    forall key: Name ensures Settled(p, s', key) {
      assert Settled(p, s, key);
      assert key == a.key ==> Busy(s', key);
      StaysBusy(s, s', a.tid, key);
    }
  }

  lemma StaysBusy(s: State, s': State, tid: Tid, key: Name)
    requires forall t | t in s.pcs && t != tid :: t in s'.pcs && s'.pcs[t] == s.pcs[t]
    requires tid in s'.pcs && (PcOf(s, tid).Idle? || (!s'.pcs[tid].Idle? && s'.pcs[tid].key == s.pcs[tid].key))
    ensures Busy(s, key) ==> Busy(s', key)
  {
    if Busy(s, key) {
      var t :| t in s.pcs && !s.pcs[t].Idle? && s.pcs[t].key == key;
      assert t in s'.pcs && !s'.pcs[t].Idle? && s'.pcs[t].key == key;
    }
  }

  lemma RebuildKeepsInv(p: Setup, s: State, a: Action)
    requires Inv(p, s) && (a.Acquire? || a.ReadDatacenter? || a.ReadConfig?) && Next(p, s, a).Some?
    ensures Inv(p, Next(p, s, a).value)
  {
    var s' := Next(p, s, a).value;
    var mine := s.pcs[a.tid].key;
    assert Fresh(p, s, a.tid);
    forall key: Name ensures Waiter(s, key) ==> Waiter(s', key) || (a.Acquire? && key == mine) {
      if Waiter(s, key) {
        var t :| t in s.pcs && s.pcs[t] == Waiting(key);
        assert t != a.tid ==> s'.pcs[t] == Waiting(key);
      }
    }
    if a.ReadDatacenter? {
      var done := s.pcs[a.tid].done;
      assert p.dcs[..done + 1][..done] == p.dcs[..done];
    }
    if a.ReadConfig? {
      assert p.dcs[..|p.dcs|] == p.dcs;
    }
    forall t | t in s'.pcs ensures Fresh(p, s', t) {
      assert t in s.pcs && Fresh(p, s, t);
    }
    forall key: Name ensures Settled(p, s', key) {
      assert Settled(p, s, key);
      StaysBusy(s, s', a.tid, key);
    }
  }

  lemma PublishKeepsInv(p: Setup, s: State, a: Action)
    requires Inv(p, s) && a.Publish? && Next(p, s, a).Some?
    ensures Inv(p, Next(p, s, a).value)
  {
    var s' := Next(p, s, a).value;
    var mine := s.pcs[a.tid].key;
    assert Fresh(p, s, a.tid);
    forall key: Name ensures Waiter(s, key) ==> Waiter(s', key) {
      if Waiter(s, key) {
        var t :| t in s.pcs && s.pcs[t] == Waiting(key);
        assert s'.pcs[t] == Waiting(key);
      }
    }
    forall t | t in s'.pcs ensures Fresh(p, s', t) {
      if t != a.tid {
        assert Fresh(p, s, t);
      }
    }
    forall key: Name ensures Settled(p, s', key) {
      assert Settled(p, s, key);
      if key == mine {
        assert Waiter(s', key) ==> Busy(s', key);
      } else if Busy(s, key) {
        var t :| t in s.pcs && !s.pcs[t].Idle? && s.pcs[t].key == key;
        assert s'.pcs[t] == s.pcs[t];
      }
    }
  }

  lemma {:induction false} RunKeepsInv(p: Setup, run: seq<Action>)
    requires ValidSetup(p) && Execute(p, run).Some?
    ensures Inv(p, Execute(p, run).value)
  {
    if run == [] {
      forall key: Name ensures Settled(p, Execute(p, run).value, key) {
        NothingCombined(key, p.dcs);
      }
    } else {
      var n := |run| - 1;
      RunKeepsInv(p, run[..n]);
      var s, a := Execute(p, run[..n]).value, run[n];
      if a.Report? || a.Configure? {
        WriteKeepsInv(p, s, a);
      } else if a.Publish? {
        PublishKeepsInv(p, s, a);
      } else {
        RebuildKeepsInv(p, s, a);
      }
    }
  }

  lemma {:induction false} NothingCombined(key: Name, dcs: seq<Name>)
    ensures Combine(map[], key, dcs) == []
  {
    if dcs != [] { NothingCombined(key, dcs[..|dcs| - 1]); }
  }

  /******* What the run reported *******/

  function LastReport(run: seq<Action>, key: Name, dc: Name): seq<Server> {
    if run == [] then []
    else
      var a := run[|run| - 1];
      if a.Report? && a.key == key && a.dc == dc then a.report
      else LastReport(run[..|run| - 1], key, dc)
  }

  function LastConfig(run: seq<Action>, key: Name): Config {
    if run == [] then map[]
    else
      var a := run[|run| - 1];
      if a.Configure? && a.key == key then a.config else LastConfig(run[..|run| - 1], key)
  }

  /** All configured datacenters' last reports for the key, in the configured order. */
  function LastReports(run: seq<Action>, key: Name, dcs: seq<Name>): seq<Server> {
    if dcs == [] then []
    else LastReports(run, key, dcs[..|dcs| - 1]) + LastReport(run, key, dcs[|dcs| - 1])
  }

  lemma {:induction false} CacheIsLastReport(p: Setup, run: seq<Action>, key: Name, dc: Name)
    requires ValidSetup(p) && Execute(p, run).Some? && dc in p.names
    ensures Cached(Execute(p, run).value.servers, key, dc) == LastReport(run, key, dc)
    ensures ConfigOf(Execute(p, run).value.configs, key) == LastConfig(run, key)
  {
    if run != [] {
      var n := |run| - 1;
      CacheIsLastReport(p, run[..n], key, dc);
      var a := run[n];
      if a.Report? && CacheKey(a.key, a.dc) == CacheKey(key, dc) {
        CacheKeyInjective(p.names, a.key, a.dc, key, dc);
      }
    }
  }

  lemma {:induction false} CombineIsLastReports(p: Setup, run: seq<Action>, key: Name, dcs: seq<Name>)
    requires ValidSetup(p) && Execute(p, run).Some? && forall d | d in dcs :: d in p.names
    ensures Combine(Execute(p, run).value.servers, key, dcs) == LastReports(run, key, dcs)
    decreases |dcs|
  {
    if dcs != [] {
      var n := |dcs| - 1;
      CombineIsLastReports(p, run, key, dcs[..n]);
      CacheIsLastReport(p, run, key, dcs[n]);
    }
  }

  lemma {:induction false} ConfigIsLast(p: Setup, run: seq<Action>, key: Name)
    requires Execute(p, run).Some?
    ensures ConfigOf(Execute(p, run).value.configs, key) == LastConfig(run, key)
  {
    if run != [] {
      ConfigIsLast(p, run[..|run| - 1], key);
    }
  }

  /** In every interleaving, for every upstream: a rebuild that follows the last cache write is
      still under way, or the published upstream is made of the last reports of all configured
      datacenters and the last configuration. */
  lemma QuiescentAgreement(p: Setup, run: seq<Action>, key: Name)
    requires ValidSetup(p) && Execute(p, run).Some?
    ensures var s := Execute(p, run).value;
            Busy(s, key) ||
            Published(s, key) == Upstream(LastConfig(run, key), multiset(LastReports(run, key, p.dcs)))
  {
    RunKeepsInv(p, run);
    assert Settled(p, Execute(p, run).value, key);
    CombineIsLastReports(p, run, key, p.dcs);
    ConfigIsLast(p, run, key);
  }

  /******* Nothing gets stuck *******/

  predicate OnlyRebuilds(actions: seq<Action>) {
    forall a | a in actions :: !a.Report? && !a.Configure?
  }

  lemma ExecuteMore(p: Setup, run: seq<Action>, a: Action)
    requires Execute(p, run).Some?
    ensures Execute(p, run + [a]) == Next(p, Execute(p, run).value, a)
  {
    assert (run + [a])[..|run|] == run;
  }

  function StepsLeft(p: Setup, pc: Pc): int {
    if pc.Reading? then 1 + |p.dcs| - pc.done else 0
  }

  /** The holder of the lock can finish its rebuild and lets go of the lock. */
  lemma HolderFinishes(p: Setup, run: seq<Action>, t: Tid) returns (rest: seq<Action>)
    requires ValidSetup(p) && Execute(p, run).Some? && Execute(p, run).value.lock == Some(t)
    ensures OnlyRebuilds(rest) && Execute(p, run + rest).Some?
    ensures var s, end := Execute(p, run).value, Execute(p, run + rest).value;
            t in s.pcs && end.lock == None && end.pcs == s.pcs[t := Idle]
    decreases StepsLeft(p, PcOf(Execute(p, run).value, t))
  {
    RunKeepsInv(p, run);
    var s := Execute(p, run).value;
    assert Fresh(p, s, t);
    if s.pcs[t].Ready? {
      rest := [Publish(t)];
      ExecuteMore(p, run, Publish(t));
    } else {
      var a := if s.pcs[t].done < |p.dcs| then ReadDatacenter(t) else ReadConfig(t);
      ExecuteMore(p, run, a);
      var more := HolderFinishes(p, run + [a], t);
      rest := [a] + more;
      assert run + rest == run + [a] + more;
    }
  }

  function Active(s: State): set<Tid> {
    set t | t in s.pcs && !s.pcs[t].Idle?
  }

  lemma SomeActive(s: State) returns (t: Tid)
    requires Active(s) != {}
    ensures t in Active(s)
  {
    if forall u | u in s.pcs :: s.pcs[u].Idle? {
      assert false;
    }
    t :| t in s.pcs && !s.pcs[t].Idle?;
  }

  /** A thread that can begin its rebuild, or has begun it. */
  lemma SettleOne(p: Setup, run: seq<Action>) returns (t: Tid, rest: seq<Action>)
    requires ValidSetup(p) && Execute(p, run).Some? && Active(Execute(p, run).value) != {}
    ensures OnlyRebuilds(rest) && Execute(p, run + rest).Some?
    ensures t in Active(Execute(p, run).value)
    ensures Execute(p, run + rest).value.pcs == Execute(p, run).value.pcs[t := Idle]
  {
    var s := Execute(p, run).value;
    RunKeepsInv(p, run);
    if s.lock.Some? {
      t := s.lock.value;
      rest := HolderFinishes(p, run, t);
    } else {
      t := SomeActive(s);
      ExecuteMore(p, run, Acquire(t));
      var more := HolderFinishes(p, run + [Acquire(t)], t);
      rest := [Acquire(t)] + more;
      assert run + rest == run + [Acquire(t)] + more;
    }
  }

  lemma ActiveLess(s: State, s': State, t: Tid)
    requires t in Active(s) && s'.pcs == s.pcs[t := Idle]
    ensures |Active(s')| < |Active(s)|
  {
    assert Active(s') == Active(s) - {t};
  }

  lemma CanSettle(p: Setup, run: seq<Action>) returns (rest: seq<Action>)
    requires ValidSetup(p) && Execute(p, run).Some?
    ensures OnlyRebuilds(rest) && Execute(p, run + rest).Some? && Active(Execute(p, run + rest).value) == {}
    decreases |Active(Execute(p, run).value)|
  {
    if Active(Execute(p, run).value) == {} {
      rest := [];
      assert run + rest == run;
    } else {
      var t, one := SettleOne(p, run);
      ActiveLess(Execute(p, run).value, Execute(p, run + one).value, t);
      var more := CanSettle(p, run + one);
      rest := one + more;
      assert run + rest == run + one + more;
    }
  }

  lemma NobodyBusy(s: State, key: Name)
    requires Active(s) == {}
    ensures !Busy(s, key)
  {
    assert forall t | t in s.pcs && !s.pcs[t].Idle? :: t in Active(s);
  }

  lemma {:induction false} SameLast(run: seq<Action>, rest: seq<Action>, key: Name, dc: Name)
    requires OnlyRebuilds(rest)
    ensures LastReport(run + rest, key, dc) == LastReport(run, key, dc)
    ensures LastConfig(run + rest, key) == LastConfig(run, key)
    decreases |rest|
  {
    if rest == [] {
      assert run + rest == run;
    } else {
      var n := |rest| - 1;
      SameLast(run, rest[..n], key, dc);
      assert rest[n] in rest;
      assert (run + rest)[..|run + rest| - 1] == run + rest[..n];
    }
  }

  lemma {:induction false} SameLastReports(run: seq<Action>, rest: seq<Action>, key: Name, dcs: seq<Name>)
    requires OnlyRebuilds(rest)
    ensures LastReports(run + rest, key, dcs) == LastReports(run, key, dcs)
    decreases |dcs|
  {
    if dcs != [] {
      SameLastReports(run, rest, key, dcs[..|dcs| - 1]);
      SameLast(run, rest, key, dcs[|dcs| - 1]);
    }
  }

  /** From every reachable state the rebuilds under way can all finish without anything new being
      reported, and then every upstream is published from what had been reported last. */
  lemma EveryRunCanSettle(p: Setup, run: seq<Action>) returns (rest: seq<Action>)
    requires ValidSetup(p) && Execute(p, run).Some?
    ensures OnlyRebuilds(rest) && Execute(p, run + rest).Some?
    ensures forall key: Name ::
              Published(Execute(p, run + rest).value, key) ==
              Upstream(LastConfig(run, key), multiset(LastReports(run, key, p.dcs)))
  {
    rest := CanSettle(p, run);
    var end := Execute(p, run + rest).value;
    forall key: Name
      ensures Published(end, key) == Upstream(LastConfig(run, key), multiset(LastReports(run, key, p.dcs)))
    {
      QuiescentAgreement(p, run + rest, key);
      SameLastReports(run, rest, key, p.dcs);
      SameLast(run, rest, key, "");
      NobodyBusy(end, key);
    }
  }

  /** An idle thread can report or configure anything at any time, without waiting for the lock. */
  lemma ReportsNeverWait(p: Setup, run: seq<Action>, t: Tid, key: Name, dc: Name, report: seq<Server>, config: Config)
    requires Execute(p, run).Some? && PcOf(Execute(p, run).value, t).Idle? && dc in p.names
    ensures Execute(p, run + [Report(t, key, dc, report)]).Some?
    ensures Execute(p, run + [Configure(t, key, config)]).Some?
  {
    ExecuteMore(p, run, Report(t, key, dc, report));
    ExecuteMore(p, run, Configure(t, key, config));
  }
}
