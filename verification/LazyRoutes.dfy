/** Importing a page only when a request asks for it: import_route looks the request up among fake
    routes, imports the module it finds and sorts the real table again
    (frontik/dev_route_manager.py, frontik/routing.py). */
module LazyRoutes {
  import opened Common
  import opened Routing
  import opened Lookups
  import opened DevRoutes

  function Real(h: Handler): Route {
    Route(true, h.path, {h.verb}, h.moduleName)
  }

  function Reals(hs: seq<Handler>): (rs: seq<Route>)
    ensures |rs| == |hs| && forall i | 0 <= i < |hs| :: rs[i] == Real(hs[i])
  {
    seq(|hs|, i requires 0 <= i < |hs| => Real(hs[i]))
  }

  function FakeTable(hs: seq<Handler>): (rs: seq<Route>)
    ensures |rs| == |hs| && forall i | 0 <= i < |hs| :: rs[i] == Fake(hs[i])
  {
    seq(|hs|, i requires 0 <= i < |hs| => Fake(hs[i]))
  }

  /** Registered paths begin with a slash or are empty; methods are upper case. */
  predicate Proper(hs: seq<Handler>) {
    forall h | h in hs :: (h.path == "" || h.path[0] == '/') && Upper(h.verb) == h.verb
  }

  /** The '/fake' prefix is literal text in both the pattern and the path. */
  ghost predicate PrefixIsLiteral(m: Matcher) {
    forall pattern, path {:trigger m("/fake" + pattern, "/fake" + path)} ::
      m("/fake" + pattern, "/fake" + path) <==> m(pattern, path)
  }

  /******* The prefix keeps the order *******/

  lemma SegmentsOfFake(path: string)
    requires path == "" || path[0] == '/'
    ensures Segments("/fake" + path) == ["fake"] + Segments(path)
  {
    SplitMore('/', "fake" + path);
    assert "/fake" + path == ['/'] + ("fake" + path);
    SplitPiece("fake", path);
    var pieces := Split(path);
    assert pieces[0] == "" && "fake" + "" == "fake";
    assert pieces == [""] + pieces[1..];
    NonEmptyMore("", pieces[1..]);
    NonEmptyMore("fake", pieces[1..]);
    NonEmptyMore("", ["fake"] + pieces[1..]);
    assert Split("/fake" + path) == [""] + (["fake"] + pieces[1..]);
  }

  lemma FakeFlags(s: seq<string>)
    ensures Flags(["fake"] + s) == [false] + Flags(s)
  {
    assert !IsParam("fake");
  }

  lemma FakeParams(h: Handler)
    requires h.path == "" || h.path[0] == '/'
    ensures HasParams(Fake(h)) <==> HasParams(Real(h))
  {
    SegmentsOfFake(h.path);
    AnyParamMore("fake", Segments(h.path));
    assert !IsParam("fake");
  }

  lemma FakeKey(h: Handler)
    requires h.path == "" || h.path[0] == '/'
    ensures KeyOf(Fake(h)) == Prefixed(KeyOf(Real(h)))
  {
    SegmentsOfFake(h.path);
    FakeFlags(Segments(h.path));
    FakeParams(h);
  }

  function Prefixed(k: SortKey): SortKey {
    SortKey(k.rank, k.minusLength - 1, if k.rank == 2 then [false] + k.flags else [])
  }

  lemma PrefixedKeysCompare(j: SortKey, k: SortKey)
    requires (j.rank != 2 ==> j.flags == []) && (k.rank != 2 ==> k.flags == [])
    ensures KeyLess(Prefixed(j), Prefixed(k)) <==> KeyLess(j, k)
  {
    assert ([false] + j.flags)[1..] == j.flags && ([false] + k.flags)[1..] == k.flags;
    assert FlagsLess([false] + j.flags, [false] + k.flags) <==> FlagsLess(j.flags, k.flags);
  }

  /** The prefix adds one literal segment in front of every route, so it keeps the sort order. */
  lemma FakePrefixKeepsOrder(a: Handler, b: Handler)
    requires a.path == "" || a.path[0] == '/'
    requires b.path == "" || b.path[0] == '/'
    ensures Before(Fake(a), Fake(b)) <==> Before(Real(a), Real(b))
  {
    FakeKey(a);
    FakeKey(b);
    PrefixedKeysCompare(KeyOf(Real(a)), KeyOf(Real(b)));
  }

  /******* One winner *******/

  /** A passing route of s that comes strictly before every other passing route. */
  ghost predicate Wins(s: seq<Route>, r: Route, p: Test) {
    r in s && p(r) && forall q | q in s && p(q) :: q == r || Before(r, q)
  }

  lemma WinnerIsFound(s: seq<Route>, r: Route, p: Test)
    requires Wins(s, r, p)
    ensures First(StableSort(s), p) == Some(r)
  {
    ScanFindsChoice(s, p);
    var j :| 0 <= j < |s| && s[j] == r;
    assert p(s[j]);
    var f := First(StableSort(s), p);
    var i: nat :| IsChoice(s, i, p) && s[i] == f.value;
    if s[i] != r {
      assert Before(r, s[i]);
      SortKeyMeansMoreSpecific(r, s[i]);
      SortKeyMeansMoreSpecific(s[i], r);
      KeysOrdered(KeyOf(r), KeyOf(s[i]), KeyOf(r));
      assert false;
    }
  }

  lemma NobodyIsFound(s: seq<Route>, p: Test)
    requires forall r | r in s :: !p(r)
    ensures First(StableSort(s), p) == None
  {
    ScanFindsChoice(s, p);
  }

  /******* Lazy against eager *******/

  function Wanted(m: Matcher, path: string, verb: string): Test {
    ServesTest(m, Normalize(path), Upper(verb))
  }

  function FakeWanted(m: Matcher, path: string, verb: string): Test {
    ServesTest(m, "/fake" + Normalize(path), Upper(verb))
  }

  /** The module import_route imports for a request, if any. fakes is the sorted fake table. */
  function Target(m: Matcher, fakes: seq<Route>, path: string, verb: string): Option<string> {
    match First(fakes, FakeWanted(m, path, verb))
    case None => None
    case Some(r) => Some(r.moduleName)
  }

  function OfModule(hs: seq<Handler>, moduleName: string): seq<Handler> {
    if hs == [] then []
    else OfModule(hs[..|hs| - 1], moduleName) + (if hs[|hs| - 1].moduleName == moduleName then [hs[|hs| - 1]] else [])
  }

  /** all: what a full import registers; loaded: what is registered so far; modules: already imported. */
  datatype Lazy = Lazy(loaded: seq<Handler>, modules: set<string>)

  /** The modules a module imports, directly or not, in the order in which they finish. */
  type Pulls = string -> seq<string>

  function LoadModules(all: seq<Handler>, l: Lazy, names: seq<string>): Lazy {
    if names == [] then l
    else
      LoadModule(all, LoadModules(all, l, names[..|names| - 1]), names[|names| - 1])
  }

  function LoadModule(all: seq<Handler>, l: Lazy, name: string): Lazy {
    if name in l.modules then l else Lazy(l.loaded + OfModule(all, name), l.modules + {name})
  }

  lemma LoadNext(all: seq<Handler>, l: Lazy, names: seq<string>, i: nat)
    requires i < |names|
    ensures LoadModules(all, l, names[..i + 1]) == LoadModule(all, LoadModules(all, l, names[..i]), names[i])
  {
    assert names[..i + 1][..i] == names[..i];
  }

  lemma AppendReals(table: seq<Route>, added: seq<Handler>, more: seq<Handler>)
    ensures table + Reals(added) + Reals(more) == table + Reals(added + more)
  {
    assert Reals(added + more) == Reals(added) + Reals(more);
  }

  function ImportRoute(
    m: Matcher, all: seq<Handler>, pulls: Pulls, fakes: seq<Route>, l: Lazy, path: string, verb: string): Lazy
  {
    match Target(m, fakes, path, verb)
    case None => l
    case Some(name) => if name in l.modules then l else LoadModules(all, l, pulls(name) + [name])
  }

  /** The code keeps one list; the modules of an import append to it and then it is sorted. */
  class LazyTable {
    const matches: Matcher
    const all: seq<Handler>
    const pulls: Pulls
    const fakes: seq<Route>
    var table: seq<Route>
    var modules: set<string>
    ghost var loaded: seq<Handler>

    ghost predicate Valid()
      reads this
    {
      table == StableSort(Reals(loaded))
    }

    constructor (matches: Matcher, all: seq<Handler>, pulls: Pulls, fakes: seq<Route>, builtin: seq<Handler>)
      ensures this.matches == matches && this.all == all && this.pulls == pulls && this.fakes == fakes
      ensures Valid() && loaded == builtin && modules == {}
    {
      this.matches, this.all, this.pulls, this.fakes := matches, all, pulls, fakes;
      table, modules, loaded := StableSort(Reals(builtin)), {}, builtin;
    }

    /** Loads modules in order, each once; added is what they register. */
    method Load(names: seq<string>) returns (ghost added: seq<Handler>)
      modifies this
      ensures loaded == old(loaded) + added && table == old(table) + Reals(added)
      ensures Lazy(loaded, modules) == LoadModules(all, old(Lazy(loaded, modules)), names)
    {
      added := [];
      for i := 0 to |names|
        invariant loaded == old(loaded) + added && table == old(table) + Reals(added)
        invariant Lazy(loaded, modules) == LoadModules(all, old(Lazy(loaded, modules)), names[..i])
      {
        LoadNext(all, old(Lazy(loaded, modules)), names, i);
        if names[i] !in modules {
          var more := OfModule(all, names[i]);
          AppendReals(old(table), added, more);
          assert old(loaded) + added + more == old(loaded) + (added + more);
          table := table + Reals(more);
          modules := modules + {names[i]};
          loaded := loaded + more;
          added := added + more;
        }
      }
      assert names[..|names|] == names;
    }

    method Import(path: string, verb: string)
      requires Valid()
      modifies this
      ensures Valid()
      ensures Lazy(loaded, modules) == ImportRoute(matches, all, pulls, fakes, old(Lazy(loaded, modules)), path, verb)
    {
      var target := Target(matches, fakes, path, verb);
      if target.Some? && target.value !in modules {
        ghost var before := loaded;
        ghost var added := Load(pulls(target.value) + [target.value]);
        SortsTheRest(before, added);
      } else {
        SortsAgain(loaded);
      }
      table := StableSort(table);
    }
  }

  lemma SortsTheRest(before: seq<Handler>, added: seq<Handler>)
    ensures StableSort(StableSort(Reals(before)) + Reals(added)) == StableSort(Reals(before + added))
  {
    assert Reals(before + added) == Reals(before) + Reals(added);
    ResortAfterAppend(Reals(before), Reals(added));
  }

  lemma SortsAgain(hs: seq<Handler>)
    ensures StableSort(StableSort(Reals(hs))) == StableSort(Reals(hs))
  {
    SortSorts(Reals(hs));
    SortedIsFixed(StableSort(Reals(hs)));
  }

  /** Everything loaded is registered by the full import, and imported modules are loaded whole. */
  predicate Loaded(all: seq<Handler>, l: Lazy) {
    && (forall h | h in l.loaded :: h in all)
    && (forall h | h in all && h.moduleName in l.modules :: h in l.loaded)
  }

  lemma {:induction false} OfModuleMembers(hs: seq<Handler>, moduleName: string, h: Handler)
    ensures h in OfModule(hs, moduleName) <==> h in hs && h.moduleName == moduleName
  {
    if hs != [] {
      OfModuleMembers(hs[..|hs| - 1], moduleName, h);
      assert hs == hs[..|hs| - 1] + [hs[|hs| - 1]];
    }
  }

  lemma {:induction false} LoadKeepsLoaded(all: seq<Handler>, l: Lazy, names: seq<string>)
    requires Loaded(all, l)
    ensures Loaded(all, LoadModules(all, l, names))
    ensures forall name | name in names :: name in LoadModules(all, l, names).modules
  {
    if names != [] {
      var n := |names| - 1;
      LoadKeepsLoaded(all, l, names[..n]);
      assert names == names[..n] + [names[n]];
      forall h ensures h in OfModule(all, names[n]) <==> h in all && h.moduleName == names[n] {
        OfModuleMembers(all, names[n], h);
      }
    }
  }

  /** A module registers its routes in their own order. */
  lemma OfModuleLast(hs: seq<Handler>, h: Handler, moduleName: string)
    ensures OfModule([h], moduleName) == if h.moduleName == moduleName then [h] else []
    ensures OfModule(hs + [h], moduleName) == OfModule(hs, moduleName) + OfModule([h], moduleName)
  {
    assert [h][..0] == [];
    assert (hs + [h])[..|hs|] == hs;
  }

  lemma Associates(a: seq<Handler>, b: seq<Handler>, c: seq<Handler>)
    ensures a + b + c == a + (b + c)
  {
  }

  lemma ConcatStep(a: seq<Handler>, init: seq<Handler>, h: Handler, moduleName: string)
    requires OfModule(a + init, moduleName) == OfModule(a, moduleName) + OfModule(init, moduleName)
    ensures OfModule(a + (init + [h]), moduleName) == OfModule(a, moduleName) + OfModule(init + [h], moduleName)
  {
    OfModuleLast(a + init, h, moduleName);
    OfModuleLast(init, h, moduleName);
    Associates(a, init, [h]);
    Associates(OfModule(a, moduleName), OfModule(init, moduleName), OfModule([h], moduleName));
  }

  lemma {:induction false} OfModuleConcat(a: seq<Handler>, b: seq<Handler>, moduleName: string)
    ensures OfModule(a + b, moduleName) == OfModule(a, moduleName) + OfModule(b, moduleName)
    decreases |b|
  {
    if b == [] {
      assert a + b == a;
    } else {
      var init, h := b[..|b| - 1], b[|b| - 1];
      OfModuleConcat(a, init, moduleName);
      ConcatStep(a, init, h, moduleName);
      assert b == init + [h];
    }
  }

  lemma TwiceStep(init: seq<Handler>, h: Handler, name: string, other: string)
    requires OfModule(OfModule(init, name), other) == if name == other then OfModule(init, name) else []
    ensures OfModule(OfModule(init + [h], name), other) == if name == other then OfModule(init + [h], name) else []
  {
    OfModuleLast(init, h, name);
    if h.moduleName == name {
      OfModuleLast(OfModule(init, name), h, other);
    } else {
      assert OfModule(init, name) + [] == OfModule(init, name);
    }
  }

  lemma {:induction false} OfModuleTwice(hs: seq<Handler>, name: string, other: string)
    ensures OfModule(OfModule(hs, name), other) == if name == other then OfModule(hs, name) else []
  {
    if hs != [] {
      OfModuleTwice(hs[..|hs| - 1], name, other);
      TwiceStep(hs[..|hs| - 1], hs[|hs| - 1], name, other);
      assert hs == hs[..|hs| - 1] + [hs[|hs| - 1]];
    }
  }

  lemma LoadsOnceStep(all: seq<Handler>, l: Lazy, name: string, other: string)
    ensures OfModule(LoadModule(all, l, name).loaded, other) ==
            OfModule(l.loaded, other) + (if other == name && name !in l.modules then OfModule(all, other) else [])
  {
    OfModuleConcat(l.loaded, OfModule(all, name), other);
    OfModuleTwice(all, name, other);
  }

  /** The routes of the module are there once more than before if it is one of the names and was not
      there. */
  predicate Once(all: seq<Handler>, l: Lazy, after: Lazy, names: seq<string>, name: string) {
    && OfModule(after.loaded, name) ==
       OfModule(l.loaded, name) + (if name in names && name !in l.modules then OfModule(all, name) else [])
    && (name in after.modules <==> name in l.modules || name in names)
  }

  lemma OnceMore(all: seq<Handler>, l: Lazy, mid: Lazy, names: seq<string>, last: string, name: string)
    requires Once(all, l, mid, names, name)
    ensures Once(all, l, LoadModule(all, mid, last), names + [last], name)
  {
    LoadsOnceStep(all, mid, last, name);
    var before, mine := OfModule(l.loaded, name), OfModule(all, name);
    assert before + [] + mine == before + mine && before + mine + [] == before + mine;
    assert before + [] + [] == before + [];
    assert name in names + [last] <==> name in names || name == last;
  }

  /** However often a module is named, its routes are registered once, in their own order, and not again if
      it was there before. */
  lemma {:induction false} LoadsOnce(all: seq<Handler>, l: Lazy, names: seq<string>, name: string)
    ensures Once(all, l, LoadModules(all, l, names), names, name)
  {
    if names == [] {
      assert OfModule(l.loaded, name) + [] == OfModule(l.loaded, name);
    } else {
      var n := |names| - 1;
      LoadsOnce(all, l, names[..n], name);
      OnceMore(all, l, LoadModules(all, l, names[..n]), names[..n], names[n], name);
      assert names == names[..n] + [names[n]];
    }
  }

  lemma ImportKeepsLoaded(
    m: Matcher, all: seq<Handler>, pulls: Pulls, fakes: seq<Route>, l: Lazy, path: string, verb: string)
    requires Loaded(all, l)
    ensures Loaded(all, ImportRoute(m, all, pulls, fakes, l, path, verb))
    ensures var t := Target(m, fakes, path, verb);
            t.Some? ==> t.value in ImportRoute(m, all, pulls, fakes, l, path, verb).modules
  {
    var t := Target(m, fakes, path, verb);
    if t.Some? {
      LoadKeepsLoaded(all, l, pulls(t.value) + [t.value]);
      assert t.value in pulls(t.value) + [t.value];
    }
  }

  lemma {:induction false} LoadsNoMore(all: seq<Handler>, l: Lazy, names: seq<string>)
    ensures var after := LoadModules(all, l, names);
            && (forall name | name in after.modules :: name in l.modules || name in names)
            && (forall name | name in l.modules :: name in after.modules)
            && l.loaded <= after.loaded
            && forall h | h in after.loaded :: h in l.loaded || (h in all && h.moduleName in names)
  {
    if names != [] {
      var n := |names| - 1;
      LoadsNoMore(all, l, names[..n]);
      assert names == names[..n] + [names[n]];
      forall h | h in OfModule(all, names[n]) ensures h in all && h.moduleName == names[n] {
        OfModuleMembers(all, names[n], h);
      }
    }
  }

  /** What import_route loads: nothing if no fake route serves the request or its module is there already;
      otherwise that module and all those it imports, with all their routes, and no others. */
  lemma ImportLoadsExactly(
    m: Matcher, all: seq<Handler>, pulls: Pulls, fakes: seq<Route>, l: Lazy, path: string, verb: string)
    requires Loaded(all, l)
    ensures var target := Target(m, fakes, path, verb);
            var after := ImportRoute(m, all, pulls, fakes, l, path, verb);
            if target.None? || target.value in l.modules then after == l
            else
              && (forall name :: name in after.modules <==>
                    name in l.modules || name == target.value || name in pulls(target.value))
              && (forall h | h in all && (h.moduleName == target.value || h.moduleName in pulls(target.value)) ::
                    h in after.loaded)
              && (forall h | h in after.loaded :: h in l.loaded ||
                    (h in all && (h.moduleName == target.value || h.moduleName in pulls(target.value))))
              && l.loaded <= after.loaded
              && forall name :: OfModule(after.loaded, name) ==
                   OfModule(l.loaded, name) +
                   (if name in after.modules && name !in l.modules then OfModule(all, name) else [])
  {
    var target := Target(m, fakes, path, verb);
    if target.Some? && target.value !in l.modules {
      var names := pulls(target.value) + [target.value];
      var after := LoadModules(all, l, names);
      LoadKeepsLoaded(all, l, names);
      LoadsNoMore(all, l, names);
      assert forall name :: name in names <==> name == target.value || name in pulls(target.value);
      forall name ensures OfModule(after.loaded, name) ==
                          OfModule(l.loaded, name) +
                          (if name in after.modules && name !in l.modules then OfModule(all, name) else [])
      {
        LoadsOnce(all, l, names, name);
      }
    }
  }

  function ImportAll(
    m: Matcher, all: seq<Handler>, pulls: Pulls, fakes: seq<Route>, l: Lazy, history: seq<Request>): Lazy
  {
    if history == [] then l
    else
      var n := |history| - 1;
      var before := ImportAll(m, all, pulls, fakes, l, history[..n]);
      ImportRoute(m, all, pulls, fakes, before, history[n].path, history[n].verb)
  }

  lemma {:induction false} HistoryKeepsLoaded(
    m: Matcher, all: seq<Handler>, pulls: Pulls, fakes: seq<Route>, l: Lazy, history: seq<Request>)
    requires Loaded(all, l)
    ensures Loaded(all, ImportAll(m, all, pulls, fakes, l, history))
  {
    if history != [] {
      var n := |history| - 1;
      HistoryKeepsLoaded(m, all, pulls, fakes, l, history[..n]);
      var before := ImportAll(m, all, pulls, fakes, l, history[..n]);
      ImportKeepsLoaded(m, all, pulls, fakes, before, history[n].path, history[n].verb);
    }
  }

  /** No two different routes with equal sort keys serve the request. */
  ghost predicate NoTies(m: Matcher, all: seq<Handler>, path: string, verb: string) {
    forall a, b | a in all && b in all && a != b ::
      Serves(m, Real(a), Normalize(path), Upper(verb)) && Serves(m, Real(b), Normalize(path), Upper(verb)) ==>
        KeyOf(Real(a)) != KeyOf(Real(b))
  }

  lemma FakeServes(m: Matcher, h: Handler, path: string, verb: string)
    requires PrefixIsLiteral(m) && Upper(h.verb) == h.verb
    ensures FakeWanted(m, path, verb)(Fake(h)) <==> Wanted(m, path, verb)(Real(h))
  {
  }

  /** The handler the fully imported table chooses. */
  lemma EagerWinner(m: Matcher, all: seq<Handler>, path: string, verb: string) returns (h: Handler)
    requires NoTies(m, all, path, verb)
    requires exists h :: h in all && Wanted(m, path, verb)(Real(h))
    ensures h in all && Wanted(m, path, verb)(Real(h))
    ensures forall o | o in all && Wanted(m, path, verb)(Real(o)) :: o == h || Before(Real(h), Real(o))
  {
    var p := Wanted(m, path, verb);
    var s := Reals(all);
    ScanFindsChoice(s, p);
    var w :| w in all && p(Real(w));
    var k :| 0 <= k < |all| && all[k] == w;
    assert p(s[k]);
    var i: nat :| IsChoice(s, i, p) && s[i] == First(StableSort(s), p).value;
    h := all[i];
    forall o | o in all && p(Real(o)) ensures o == h || Before(Real(h), Real(o)) {
      var j :| 0 <= j < |all| && all[j] == o;
      assert p(s[j]);
      SortKeyMeansMoreSpecific(s[i], s[j]);
      SortKeyMeansMoreSpecific(s[j], s[i]);
      KeysOrdered(KeyOf(s[i]), KeyOf(s[j]), KeyOf(s[i]));
    }
  }

  lemma WinnerAmong(hs: seq<Handler>, all: seq<Handler>, h: Handler, m: Matcher, path: string, verb: string)
    requires h in hs && (forall o | o in hs :: o in all) && Wanted(m, path, verb)(Real(h))
    requires forall o | o in all && Wanted(m, path, verb)(Real(o)) :: o == h || Before(Real(h), Real(o))
    ensures Wins(Reals(hs), Real(h), Wanted(m, path, verb))
  {
    var i :| 0 <= i < |hs| && hs[i] == h;
    assert Reals(hs)[i] == Real(h);
    forall q | q in Reals(hs) && Wanted(m, path, verb)(q) ensures q == Real(h) || Before(Real(h), q) {
      var j :| 0 <= j < |hs| && Reals(hs)[j] == q;
      assert hs[j] in all;
    }
  }

  lemma FakeWinner(listed: seq<Handler>, all: seq<Handler>, h: Handler, m: Matcher, path: string, verb: string)
    requires Proper(all) && PrefixIsLiteral(m) && (forall o :: o in listed <==> o in all)
    requires h in all && Wanted(m, path, verb)(Real(h))
    requires forall o | o in all && Wanted(m, path, verb)(Real(o)) :: o == h || Before(Real(h), Real(o))
    ensures Wins(FakeTable(listed), Fake(h), FakeWanted(m, path, verb))
  {
    var i :| 0 <= i < |listed| && listed[i] == h;
    assert FakeTable(listed)[i] == Fake(h);
    FakeServes(m, h, path, verb);
    forall q | q in FakeTable(listed) && FakeWanted(m, path, verb)(q) ensures q == Fake(h) || Before(Fake(h), q) {
      var j :| 0 <= j < |listed| && FakeTable(listed)[j] == q;
      var o := listed[j];
      assert o in all;
      FakeServes(m, o, path, verb);
      FakePrefixKeepsOrder(h, o);
    }
  }

  /** From any start and after any history of on-demand imports, the route chosen once import_route has run for the
      request is the route the fully imported table chooses; listed is the saved map in any order. */
  lemma {:induction false} LazyRefinesEager(
    m: Matcher, all: seq<Handler>, pulls: Pulls, start: Lazy, listed: seq<Handler>, history: seq<Request>,
    path: string, verb: string)
    requires Proper(all) && PrefixIsLiteral(m) && (forall o :: o in listed <==> o in all)
    requires Loaded(all, start) && NoTies(m, all, path, verb)
    ensures var fakes := StableSort(FakeTable(listed));
            var before := ImportAll(m, all, pulls, fakes, start, history);
            var after := ImportRoute(m, all, pulls, fakes, before, path, verb);
            First(StableSort(Reals(after.loaded)), Wanted(m, path, verb)) ==
            First(StableSort(Reals(all)), Wanted(m, path, verb))
  {
    var fakes := StableSort(FakeTable(listed));
    var p := Wanted(m, path, verb);
    var before := ImportAll(m, all, pulls, fakes, start, history);
    var after := ImportRoute(m, all, pulls, fakes, before, path, verb);
    HistoryKeepsLoaded(m, all, pulls, fakes, start, history);
    ImportKeepsLoaded(m, all, pulls, fakes, before, path, verb);
    if exists h :: h in all && p(Real(h)) {
      var h := EagerWinner(m, all, path, verb);
      FakeWinner(listed, all, h, m, path, verb);
      WinnerIsFound(FakeTable(listed), Fake(h), FakeWanted(m, path, verb));
      assert Target(m, fakes, path, verb) == Some(h.moduleName);
      WinnerAmong(after.loaded, all, h, m, path, verb);
      WinnerIsFound(Reals(after.loaded), Real(h), p);
      WinnerAmong(all, all, h, m, path, verb);
      WinnerIsFound(Reals(all), Real(h), p);
    } else {
      forall r | r in Reals(all) ensures !p(r) {
        var i :| 0 <= i < |all| && Reals(all)[i] == r;
        assert all[i] in all;
      }
      forall r | r in Reals(after.loaded) ensures !p(r) {
        var i :| 0 <= i < |after.loaded| && Reals(after.loaded)[i] == r;
        assert after.loaded[i] in all;
      }
      NobodyIsFound(Reals(all), p);
      NobodyIsFound(Reals(after.loaded), p);
    }
  }

  /** The route a lookup finds in a table, if it finds one. */
  function FoundRoute(m: Matcher, t: Tables, path: string, verb: string): Option<Route> {
    var o := Lookup(m, t, path, verb).1;
    if o.Found? && o.index < |t.routes| then Some(t.routes[o.index]) else None
  }

  lemma FoundIsFirst(m: Matcher, t: Tables, path: string, verb: string)
    requires verb != "HEAD"
    ensures FoundRoute(m, t, path, verb) == First(t.routes, Wanted(m, path, verb))
  {
    ExactIsScan(m, t.routes, Normalize(path), Upper(verb), 0);
    assert t.routes[0..] == t.routes;
  }

  /** The same for whole lookups: importing on demand finds the route that the full table finds. */
  lemma LazyFindsEagerRoute(
    m: Matcher, t: Tables, all: seq<Handler>, pulls: Pulls, start: Lazy, listed: seq<Handler>, history: seq<Request>,
    path: string, verb: string)
    requires Proper(all) && PrefixIsLiteral(m) && (forall o :: o in listed <==> o in all)
    requires Loaded(all, start) && NoTies(m, all, path, verb) && verb != "HEAD"
    ensures var fakes := StableSort(FakeTable(listed));
            var before := ImportAll(m, all, pulls, fakes, start, history);
            var after := ImportRoute(m, all, pulls, fakes, before, path, verb);
            FoundRoute(m, t.(routes := StableSort(Reals(after.loaded))), path, verb) ==
            FoundRoute(m, t.(routes := StableSort(Reals(all))), path, verb)
  {
    var fakes := StableSort(FakeTable(listed));
    var before := ImportAll(m, all, pulls, fakes, start, history);
    var after := ImportRoute(m, all, pulls, fakes, before, path, verb);
    LazyRefinesEager(m, all, pulls, start, listed, history, path, verb);
    FoundIsFirst(m, t.(routes := StableSort(Reals(after.loaded))), path, verb);
    FoundIsFirst(m, t.(routes := StableSort(Reals(all))), path, verb);
  }

  lemma {:induction false} FakesAreTheFakeTable(es: seq<Entry>) returns (listed: seq<Handler>)
    ensures FakeTable(listed) == Fakes(es)
    ensures forall h :: h in listed <==> exists e :: e in es && HandlerOf(e) == h
  {
    if es == [] {
      listed := [];
    } else {
      var init, e := es[..|es| - 1], es[|es| - 1];
      var rest := FakesAreTheFakeTable(init);
      listed := rest + [HandlerOf(e)];
      assert FakeTable(listed) == FakeTable(rest) + [Fake(HandlerOf(e))];
      assert es == init + [e];
    }
  }

  /** Both speed-ups together: after a warm start below the limit that hides nothing, and any history
      of requests, each request is routed as after a full import. */
  lemma {:induction false} WarmAndLazyIsEager(
    before: World, w: World, sv: Saved, few: seq<Handler>, all: seq<Handler>, modules: set<string>,
    m: Matcher, pulls: Pulls, start: Lazy, history: seq<Request>, path: string, verb: string)
    requires WellFormed(before) && WellFormed(w) && EditsChangeMtimes(before, w) && Records(sv.cache, before)
    requires ChangedModules(w, sv) <= modules && (ChangeCount(w, sv) == 0 ==> modules == {})
    requires Registers(w, few, modules) && Registers(w, all, w.pages.Keys)
    requires ChangeCount(w, sv) <= MAX_CHANGED && forall p :: !Hides(w, sv, modules, p)
    requires Proper(all) && PrefixIsLiteral(m) && Loaded(all, start) && NoTies(m, all, path, verb)
    ensures var fakes := StableSort(Fakes(Recorded(w, Some(sv), few, all)));
            var after := ImportRoute(m, all, pulls, fakes, ImportAll(m, all, pulls, fakes, start, history), path, verb);
            First(StableSort(Reals(after.loaded)), Wanted(m, path, verb)) ==
            First(StableSort(Reals(all)), Wanted(m, path, verb))
  {
    var rec := Recorded(w, Some(sv), few, all);
    WarmIsCold(before, w, sv, few, all, modules);
    var listed := FakesAreTheFakeTable(rec);
    forall h ensures h in listed <==> h in all {
      if h in all {
        assert InCold(w, EntryOf(w, h)) && HandlerOf(EntryOf(w, h)) == h;
      }
      if h in listed {
        var e :| e in rec && HandlerOf(e) == h;
        assert InCold(w, e);
      }
    }
    LazyRefinesEager(m, all, pulls, start, listed, history, path, verb);
  }

  /** A request that no route of the application serves imports nothing. */
  lemma UnservedImportsNothing(
    m: Matcher, all: seq<Handler>, pulls: Pulls, listed: seq<Handler>, l: Lazy, path: string, verb: string)
    requires Proper(all) && PrefixIsLiteral(m) && (forall h | h in listed :: h in all)
    requires forall h | h in all :: !Wanted(m, path, verb)(Real(h))
    ensures ImportRoute(m, all, pulls, StableSort(FakeTable(listed)), l, path, verb) == l
  {
    forall r | r in FakeTable(listed) ensures !FakeWanted(m, path, verb)(r) {
      var i :| 0 <= i < |listed| && FakeTable(listed)[i] == r;
      assert listed[i] in all;
      FakeServes(m, listed[i], path, verb);
    }
    NobodyIsFound(FakeTable(listed), FakeWanted(m, path, verb));
  }

  /******* Unserved requests *******/

  /** The methods of the handlers on the path, other than OPTIONS. */
  function OfferedVerbs(m: Matcher, hs: seq<Handler>, path: string): set<string> {
    set h | h in hs && Offering(m, Real(h), Normalize(path)) :: h.verb
  }

  lemma SortMembers(s: seq<Route>, r: Route)
    ensures r in StableSort(s) <==> r in s
  {
    SortPermutes(s);
    assert r in multiset(StableSort(s)) <==> r in multiset(s);
  }

  lemma TableMember(hs: seq<Handler>, r: Route)
    ensures r in StableSort(Reals(hs)) <==> exists h :: h in hs && Real(h) == r
  {
    SortMembers(Reals(hs), r);
    if h :| h in hs && Real(h) == r {
      var i :| 0 <= i < |hs| && hs[i] == h;
      assert Reals(hs)[i] == r;
    }
    if r in Reals(hs) {
      var i :| 0 <= i < |hs| && Reals(hs)[i] == r;
      assert hs[i] in hs && Real(hs[i]) == r;
    }
  }

  predicate OfferedIn(m: Matcher, routes: seq<Route>, path: string, x: string) {
    exists i | 0 <= i < |routes| :: Offering(m, routes[i], path) && x in routes[i].methods
  }

  lemma Offerers(m: Matcher, hs: seq<Handler>, path: string, x: string)
    ensures x in OfferedVerbs(m, hs, path) <==> OfferedIn(m, StableSort(Reals(hs)), Normalize(path), x)
  {
    var table := StableSort(Reals(hs));
    if x in OfferedVerbs(m, hs, path) {
      var h :| h in hs && Offering(m, Real(h), Normalize(path)) && h.verb == x;
      TableMember(hs, Real(h));
      var i :| 0 <= i < |table| && table[i] == Real(h);
    }
    if i :| 0 <= i < |table| && Offering(m, table[i], Normalize(path)) && x in table[i].methods {
      TableMember(hs, table[i]);
    }
  }

  lemma AllowedIsOffered(m: Matcher, routes: seq<Route>, path: string, verb: string, x: string)
    requires forall i | 0 <= i < |routes| :: !Serves(m, routes[i], path, verb)
    ensures x in Allowed(m, routes, path, verb) <==> OfferedIn(m, routes, path, x)
  {
    AllowedMembers(m, routes, path, verb, x);
    OffersIsOffering(m, routes, path, verb);
  }

  predicate ServesNone(m: Matcher, routes: seq<Route>, path: string, verb: string) {
    forall i | 0 <= i < |routes| :: !Serves(m, routes[i], Normalize(path), Upper(verb))
  }

  lemma OutcomeOf(m: Matcher, t: Tables, path: string, verb: string, offered: set<string>)
    requires verb != "HEAD" && verb != "OPTIONS" && ServesNone(m, t.routes, path, verb)
    requires forall x :: x in offered <==> OfferedIn(m, t.routes, Normalize(path), x)
    ensures Lookup(m, t, path, verb).1 == if offered == {} then NotFound else NotAllowed(offered)
  {
    ExactIsFirst(m, t.routes, Normalize(path), Upper(verb), 0);
    var allow := Allowed(m, t.routes, Normalize(path), Upper(verb));
    forall x ensures x in allow <==> x in offered {
      AllowedIsOffered(m, t.routes, Normalize(path), Upper(verb), x);
    }
    assert allow == offered;
  }

  lemma TableServesNone(m: Matcher, hs: seq<Handler>, path: string, verb: string)
    requires forall h | h in hs :: !Wanted(m, path, verb)(Real(h))
    ensures ServesNone(m, StableSort(Reals(hs)), path, verb)
  {
    var table := StableSort(Reals(hs));
    forall i | 0 <= i < |table| ensures !Serves(m, table[i], Normalize(path), Upper(verb)) {
      TableMember(hs, table[i]);
    }
  }

  /** What a table of handlers answers to a request that none of them serves. */
  lemma UnservedAnswer(m: Matcher, t: Tables, hs: seq<Handler>, path: string, verb: string)
    requires verb != "HEAD" && verb != "OPTIONS" && forall h | h in hs :: !Wanted(m, path, verb)(Real(h))
    ensures var offered := OfferedVerbs(m, hs, path);
            Lookup(m, t.(routes := StableSort(Reals(hs))), path, verb).1 ==
            if offered == {} then NotFound else NotAllowed(offered)
  {
    var offered, table := OfferedVerbs(m, hs, path), t.(routes := StableSort(Reals(hs)));
    TableServesNone(m, hs, path, verb);
    forall x ensures x in offered <==> OfferedIn(m, table.routes, Normalize(path), x) {
      Offerers(m, hs, path, x);
    }
    OutcomeOf(m, table, path, verb, offered);
  }

  /** Served requests are refined; for any other request, after any start and any history, importing on
      demand answers 404 or 405 as the full table does if and only if some route to offer is loaded
      already whenever there is one at all, and with the same Allow if and only if the loaded routes on
      the path have all the methods there are. */
  lemma {:induction false} LazyUnservedAnswer(
    m: Matcher, t: Tables, all: seq<Handler>, pulls: Pulls, start: Lazy, listed: seq<Handler>, history: seq<Request>,
    path: string, verb: string)
    requires Proper(all) && PrefixIsLiteral(m) && (forall h | h in listed :: h in all) && Loaded(all, start)
    requires verb != "HEAD" && verb != "OPTIONS" && forall h | h in all :: !Wanted(m, path, verb)(Real(h))
    ensures var fakes := StableSort(FakeTable(listed));
            var before := ImportAll(m, all, pulls, fakes, start, history);
            var after := ImportRoute(m, all, pulls, fakes, before, path, verb);
            var known, there := OfferedVerbs(m, before.loaded, path), OfferedVerbs(m, all, path);
            var lazy := Lookup(m, t.(routes := StableSort(Reals(after.loaded))), path, verb).1;
            var eager := Lookup(m, t.(routes := StableSort(Reals(all))), path, verb).1;
            && (lazy.NotFound? || lazy.NotAllowed?) && (eager.NotFound? || eager.NotAllowed?)
            && ((lazy.NotAllowed? <==> eager.NotAllowed?) <==> (there != {} ==> known != {}))
            && (lazy == eager <==> known == there)
  {
    var fakes := StableSort(FakeTable(listed));
    var before := ImportAll(m, all, pulls, fakes, start, history);
    HistoryKeepsLoaded(m, all, pulls, fakes, start, history);
    UnservedImportsNothing(m, all, pulls, listed, before, path, verb);
    UnservedAnswer(m, t, before.loaded, path, verb);
    UnservedAnswer(m, t, all, path, verb);
    assert OfferedVerbs(m, before.loaded, path) <= OfferedVerbs(m, all, path);
  }

  /** A page that would have turned 404 into 405 and has not been imported stays unknown. */
  lemma {:induction false} LazyCanMiss405(m: Matcher, pulls: Pulls, t: Tables, h: Handler)
    requires PrefixIsLiteral(m) && h == Handler("POST", "/a", "p") && m("/a", "/a")
    ensures var after := ImportRoute(m, [h], pulls, StableSort(FakeTable([h])), Lazy([], {}), "/a", "GET");
            && Lookup(m, t.(routes := StableSort(Reals([h]))), "/a", "GET").1 == NotAllowed({"POST"})
            && Lookup(m, t.(routes := StableSort(Reals(after.loaded))), "/a", "GET").1 == NotFound
  {
    GetIsUpper();
    PostIsUpper();
    assert Normalize("/a") == "/a";
    assert !Wanted(m, "/a", "GET")(Real(h));
    UnservedImportsNothing(m, [h], pulls, [h], Lazy([], {}), "/a", "GET");
    UnservedAnswer(m, t, [h], "/a", "GET");
    UnservedAnswer(m, t, [], "/a", "GET");
    assert Offering(m, Real(h), "/a");
    assert OfferedVerbs(m, [h], "/a") == {"POST"};
  }

  lemma PostIsUpper()
    ensures Upper("POST") == "POST"
  {
    var u := Upper("POST");
    assert u[0] == 'P' && u[1] == 'O' && u[2] == 'S' && u[3] == 'T';
  }
}
