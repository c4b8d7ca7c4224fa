/** The development-mode route cache: a start from a saved cache against a full import, and lookups
    that import a page only when it is asked for (frontik/dev_route_manager.py). */
module DevRoutes {
  import opened Common
  import opened Routing
  import opened Lookups

  const EMPTY_FS_PATH := "empty"
  const MAX_CHANGED := 15

  /** A route with one method, as a page module registers it. */
  datatype Handler = Handler(verb: string, path: string, moduleName: string)

  datatype Page = Page(fsPath: string, mtime: int, handlers: seq<Handler>)

  /** The pages on disk and what importing each of them registers, and the routes that are there
      before any page is imported. */
  datatype World = World(pages: map<string, Page>, builtin: seq<Handler>)

  predicate WellFormed(w: World) {
    && (forall m | m in w.pages :: w.pages[m].fsPath != EMPTY_FS_PATH)
    && (forall m | m in w.pages :: forall h | h in w.pages[m].handlers :: h.moduleName == m)
    && (forall h | h in w.builtin :: h.moduleName !in w.pages)
  }

  /** RouteCache. */
  datatype Entry = Entry(endpoint: string, verb: string, path: string, mtime: int, fsPath: string)

  /** PageMtime. */
  datatype Stamp = Stamp(endpoint: string, mtime: int, fsPath: string)

  type Pair = (string, string)

  /** The module written to disk; exclude: pages that had no routes when it was first created. */
  datatype Saved = Saved(cache: seq<Entry>, exclude: seq<Stamp>)

  predicate Has(w: World, h: Handler) {
    h in w.builtin || (h.moduleName in w.pages && h in w.pages[h.moduleName].handlers)
  }

  function EntryOf(w: World, h: Handler): Entry {
    if h.moduleName in w.pages
    then Entry(h.moduleName, h.verb, h.path, w.pages[h.moduleName].mtime, w.pages[h.moduleName].fsPath)
    else Entry(h.moduleName, h.verb, h.path, 0, EMPTY_FS_PATH)
  }

  function HandlerOf(e: Entry): Handler {
    Handler(e.verb, e.path, e.endpoint)
  }

  /** What a full import of this world records. */
  predicate InCold(w: World, e: Entry) {
    Has(w, HandlerOf(e)) && e == EntryOf(w, HandlerOf(e))
  }

  ghost predicate Records(es: seq<Entry>, w: World) {
    forall e :: e in es <==> InCold(w, e)
  }

  /******* The difference between cache and disk *******/

  function FilePairs(w: World): set<Pair> {
    set m | m in w.pages :: (m, w.pages[m].fsPath)
  }

  function CachePairs(cache: seq<Entry>): set<Pair> {
    set e | e in cache :: (e.endpoint, e.fsPath)
  }

  function StampPairs(stamps: seq<Stamp>): set<Pair> {
    set f | f in stamps :: (f.endpoint, f.fsPath)
  }

  function NeedDelete(w: World, cache: seq<Entry>): set<string> {
    set q | q in CachePairs(cache) - FilePairs(w) && q.1 != EMPTY_FS_PATH :: q.0
  }

  function NeedAdd(w: World, sv: Saved): set<string> {
    set q | q in FilePairs(w) - CachePairs(sv.cache) - StampPairs(sv.exclude) && q.1 != EMPTY_FS_PATH :: q.0
  }

  predicate Touched(w: World, e: Entry) {
    e.endpoint in w.pages && w.pages[e.endpoint].mtime != e.mtime
  }

  function Changed(w: World, cache: seq<Entry>): seq<Entry> {
    if cache == [] then []
    else
      var n := |cache| - 1;
      Changed(w, cache[..n]) + (if Touched(w, cache[n]) then [cache[n]] else [])
  }

  function Kept(w: World, cache: seq<Entry>, needDelete: set<string>): seq<Entry> {
    if cache == [] then []
    else
      var n := |cache| - 1;
      Kept(w, cache[..n], needDelete) +
      (if !Touched(w, cache[n]) && cache[n].endpoint !in needDelete then [cache[n]] else [])
  }

  function EntriesOf(w: World, hs: seq<Handler>): seq<Entry> {
    if hs == [] then [] else EntriesOf(w, hs[..|hs| - 1]) + [EntryOf(w, hs[|hs| - 1])]
  }

  function ChangeCount(w: World, sv: Saved): nat {
    |NeedAdd(w, sv)| + |Changed(w, sv.cache)|
  }

  /** Everything passed to add_fake_route by a start, in order. few: the routes registered once the
      changed pages are imported; all: once every page is. */
  function Recorded(w: World, saved: Option<Saved>, few: seq<Handler>, all: seq<Handler>): seq<Entry> {
    match saved
    case None => EntriesOf(w, all)
    case Some(sv) =>
      var kept := Kept(w, sv.cache, NeedDelete(w, sv.cache));
      if ChangeCount(w, sv) == 0 then kept
      else kept + EntriesOf(w, if ChangeCount(w, sv) > MAX_CHANGED then all else few)
  }

  function RouteKey(e: Entry): string {
    Upper(e.verb) + "." + e.path
  }

  function PutAll(m: map<string, Entry>, es: seq<Entry>): map<string, Entry> {
    if es == [] then m
    else PutAll(m, es[..|es| - 1])[RouteKey(es[|es| - 1]) := es[|es| - 1]]
  }

  function Fake(h: Handler): Route {
    Route(true, "/fake" + h.path, {Upper(h.verb)}, h.moduleName)
  }

  function Fakes(es: seq<Entry>): seq<Route> {
    if es == [] then [] else Fakes(es[..|es| - 1]) + [Fake(HandlerOf(es[|es| - 1]))]
  }

  lemma PutLast(m: map<string, Entry>, es: seq<Entry>, e: Entry)
    ensures PutAll(m, es + [e]) == PutAll(m, es)[RouteKey(e) := e]
    ensures Fakes(es + [e]) == Fakes(es) + [Fake(HandlerOf(e))]
  {
    assert (es + [e])[..|es|] == es;
  }

  lemma {:induction false} PutAllConcat(m: map<string, Entry>, a: seq<Entry>, b: seq<Entry>)
    ensures PutAll(m, a + b) == PutAll(PutAll(m, a), b)
    ensures Fakes(a + b) == Fakes(a) + Fakes(b)
    decreases |b|
  {
    if b == [] {
      assert a + b == a;
    } else {
      var init, e := b[..|b| - 1], b[|b| - 1];
      PutAllConcat(m, a, init);
      PutLast(m, a + init, e);
      assert a + b == a + init + [e];
    }
  }

  /******* The code *******/

  /** The stamps of cached routes. */
  function CacheStamps(cache: seq<Entry>): seq<Stamp> {
    if cache == [] then []
    else
      var e := cache[|cache| - 1];
      CacheStamps(cache[..|cache| - 1]) + [Stamp(e.endpoint, e.mtime, e.fsPath)]
  }

  /** The mtime listed last for an endpoint. */
  function LastMtime(stamps: seq<Stamp>, endpoint: string): Option<int> {
    if stamps == [] then None
    else
      var f := stamps[|stamps| - 1];
      if f.endpoint == endpoint then Some(f.mtime) else LastMtime(stamps[..|stamps| - 1], endpoint)
  }

  /** It is the mtime of the last stamp for the endpoint, and there is one if the endpoint is listed. */
  lemma {:induction false} LastMtimeIsLast(stamps: seq<Stamp>, endpoint: string, i: nat)
    requires i < |stamps| && stamps[i].endpoint == endpoint
    requires forall j | i < j < |stamps| :: stamps[j].endpoint != endpoint
    ensures LastMtime(stamps, endpoint) == Some(stamps[i].mtime)
  {
    if i < |stamps| - 1 {
      LastMtimeIsLast(stamps[..|stamps| - 1], endpoint, i);
    }
  }

  /** The mtimes of a list are in the dictionary, the last one for each endpoint. */
  ghost predicate Collected(stamps: seq<Stamp>, mtimes: map<string, int>) {
    forall k :: LastMtime(stamps, k) == if k in mtimes then Some(mtimes[k]) else None
  }

  lemma CollectMore(stamps: seq<Stamp>, mtimes: map<string, int>, f: Stamp)
    requires Collected(stamps, mtimes)
    ensures Collected(stamps + [f], mtimes[f.endpoint := f.mtime])
  {
    assert (stamps + [f])[..|stamps|] == stamps;
  }

  predicate Stamped(stamps: map<string, Stamp>, pairs: set<Pair>, listed: seq<Stamp>) {
    && stamps.Keys == (set q | q in pairs && q.1 != EMPTY_FS_PATH :: q.0)
    && forall k | k in stamps ::
         && stamps[k].endpoint == k && (k, stamps[k].fsPath) in pairs
         && stamps[k].fsPath != EMPTY_FS_PATH && LastMtime(listed, k) == Some(stamps[k].mtime)
  }

  method GetDiff(cache: seq<Entry>, files: seq<Stamp>, exclude: seq<Stamp>)
    returns (needDelete: map<string, Stamp>, needAdd: map<string, Stamp>)
    ensures Stamped(needDelete, CachePairs(cache) - StampPairs(files), CacheStamps(cache))
    ensures Stamped(needAdd, StampPairs(files) - CachePairs(cache) - StampPairs(exclude), files)
  {
    var cached, cacheMtime := {}, map[];
    for i := 0 to |cache|
      invariant cached == CachePairs(cache[..i])
      invariant Collected(CacheStamps(cache[..i]), cacheMtime)
      invariant forall q | q in cached :: q.0 in cacheMtime
    {
      assert cache[..i + 1] == cache[..i] + [cache[i]] && cache[..i + 1][..i] == cache[..i];
      CollectMore(CacheStamps(cache[..i]), cacheMtime, Stamp(cache[i].endpoint, cache[i].mtime, cache[i].fsPath));
      cacheMtime := cacheMtime[cache[i].endpoint := cache[i].mtime];
      cached := cached + {(cache[i].endpoint, cache[i].fsPath)};
    }
    var onDisk, diskMtime := {}, map[];
    for i := 0 to |files|
      invariant onDisk == StampPairs(files[..i])
      invariant Collected(files[..i], diskMtime)
      invariant forall q | q in onDisk :: q.0 in diskMtime
    {
      assert files[..i + 1] == files[..i] + [files[i]];
      CollectMore(files[..i], diskMtime, files[i]);
      diskMtime := diskMtime[files[i].endpoint := files[i].mtime];
      onDisk := onDisk + {(files[i].endpoint, files[i].fsPath)};
    }
    assert cache[..|cache|] == cache && files[..|files|] == files;
    var excluded := StampPairs(exclude);
    needDelete := StampAll(cached - onDisk, cacheMtime, CacheStamps(cache));
    needAdd := StampAll(onDisk - cached - excluded, diskMtime, files);
  }

  method StampAll(pairs: set<Pair>, mtimes: map<string, int>, ghost listed: seq<Stamp>)
    returns (stamps: map<string, Stamp>)
    requires Collected(listed, mtimes) && forall q | q in pairs :: q.0 in mtimes
    ensures Stamped(stamps, pairs, listed)
  {
    stamps := map[];
    var left := pairs;
    while left != {}
      invariant left <= pairs && Stamped(stamps, pairs - left, listed)
      decreases left
    {
      var q :| q in left;
      left := left - {q};
      if q.1 != EMPTY_FS_PATH {
        stamps := stamps[q.0 := Stamp(q.0, mtimes[q.0], q.1)];
      }
    }
    assert pairs - left == pairs;
  }

  /** list(d.values()). */
  method ListValues<T(==)>(d: map<string, T>) returns (values: seq<T>)
    ensures forall v :: v in values <==> v in d.Values
  {
    values := [];
    var left := d.Keys;
    while left != {}
      invariant left <= d.Keys
      invariant forall v :: v in values <==> exists k | k in d.Keys - left :: d[k] == v
      decreases left
    {
      var k :| k in left;
      left := left - {k};
      values := values + [d[k]];
    }
  }

  /** The pages on disk without a cached route. */
  function Unrecorded(w: World, cache: seq<Entry>): set<Pair> {
    set q | q in FilePairs(w) - CachePairs(cache) && q.1 != EMPTY_FS_PATH
  }

  predicate Short(w: World, saved: Option<Saved>) {
    saved.Some? && ChangeCount(w, saved.value) <= MAX_CHANGED
  }

  /** What a start that has built the map writes to disk. */
  ghost predicate Saves(w: World, saved: Option<Saved>, routesMap: map<string, Entry>, next: Saved) {
    && (forall e :: e in next.cache <==> e in routesMap.Values)
    && if Short(w, saved) then next.exclude == saved.value.exclude
       else StampPairs(next.exclude) == Unrecorded(w, next.cache)
  }

  class DevRouteManager {
    var routesMap: map<string, Entry>
    var fakeRoutes: seq<Route>

    constructor ()
      ensures routesMap == map[] && fakeRoutes == []
    {
      routesMap, fakeRoutes := map[], [];
    }

    method AddFakeRoute(e: Entry)
      modifies this
      ensures routesMap == old(routesMap)[RouteKey(e) := e]
      ensures fakeRoutes == old(fakeRoutes) + [Fake(HandlerOf(e))]
    {
      routesMap := routesMap[RouteKey(e) := e];
      fakeRoutes := fakeRoutes + [Fake(HandlerOf(e))];
    }

    method ProcessRoutes(w: World, registered: seq<Handler>)
      modifies this
      ensures routesMap == PutAll(old(routesMap), EntriesOf(w, registered))
      ensures fakeRoutes == old(fakeRoutes) + Fakes(EntriesOf(w, registered))
    {
      for i := 0 to |registered|
        invariant routesMap == PutAll(old(routesMap), EntriesOf(w, registered[..i]))
        invariant fakeRoutes == old(fakeRoutes) + Fakes(EntriesOf(w, registered[..i]))
      {
        var es, e := EntriesOf(w, registered[..i]), EntryOf(w, registered[i]);
        assert registered[..i + 1][..i] == registered[..i];
        PutLast(old(routesMap), es, e);
        AddFakeRoute(e);
      }
      assert registered[..|registered|] == registered;
    }

    /** The cached routes of untouched pages become fake routes again; those of touched pages are
        returned. */
    method KeepUnchanged(w: World, cache: seq<Entry>, needDelete: map<string, Stamp>) returns (needToUpdate: seq<Entry>)
      requires routesMap == map[] && fakeRoutes == []
      modifies this
      ensures needToUpdate == Changed(w, cache)
      ensures routesMap == PutAll(map[], Kept(w, cache, needDelete.Keys))
      ensures fakeRoutes == Fakes(Kept(w, cache, needDelete.Keys))
    {
      needToUpdate := [];
      for i := 0 to |cache|
        invariant needToUpdate == Changed(w, cache[..i])
        invariant routesMap == PutAll(map[], Kept(w, cache[..i], needDelete.Keys))
        invariant fakeRoutes == Fakes(Kept(w, cache[..i], needDelete.Keys))
      {
        var e := cache[i];
        ghost var es := Kept(w, cache[..i], needDelete.Keys);
        assert cache[..i + 1][..i] == cache[..i];
        PutLast(map[], es, e);
        assert es + [] == es;
        if e.endpoint in w.pages && w.pages[e.endpoint].mtime != e.mtime {
          needToUpdate := needToUpdate + [e];
        } else if e.endpoint !in needDelete {
          AddFakeRoute(e);
        }
      }
      assert cache[..|cache|] == cache;
    }

    /** A full import: record everything, exclude the pages that turn out to have no routes. */
    method CreateRouteMap(w: World, files: seq<Stamp>, all: seq<Handler>) returns (next: Saved)
      requires StampPairs(files) == FilePairs(w)
      modifies this
      ensures routesMap == PutAll(old(routesMap), EntriesOf(w, all))
      ensures fakeRoutes == old(fakeRoutes) + Fakes(EntriesOf(w, all))
      ensures Saves(w, None, routesMap, next)
    {
      ProcessRoutes(w, all);
      var cache := ListValues(routesMap);
      var _, needAdd := GetDiff(cache, files, []);
      var exclude := ListValues(needAdd);
      next := Saved(cache, exclude);
      ExcludedPairs(w, cache, files, needAdd, exclude);
    }

    /** A start. few and all are what fastapi_routes holds once the changed pages, or all pages, are
        imported. Neither sort changes the map; the fake table is sorted only on the short path. */
    method ImportAllPages(w: World, files: seq<Stamp>, saved: Option<Saved>, few: seq<Handler>, all: seq<Handler>)
      returns (next: Saved)
      requires routesMap == map[] && fakeRoutes == [] && StampPairs(files) == FilePairs(w)
      modifies this
      ensures routesMap == PutAll(map[], Recorded(w, saved, few, all))
      ensures Short(w, saved) ==> fakeRoutes == StableSort(Fakes(Recorded(w, saved, few, all)))
      ensures !Short(w, saved) ==> fakeRoutes == Fakes(Recorded(w, saved, few, all))
      ensures Saves(w, saved, routesMap, next)
    {
      if saved.None? {
        next := CreateRouteMap(w, files, all);
        return;
      }
      var sv := saved.value;
      var needDelete, needAdd := GetDiff(sv.cache, files, sv.exclude);
      assert needDelete.Keys == NeedDelete(w, sv.cache) && needAdd.Keys == NeedAdd(w, sv);
      var needToUpdate := KeepUnchanged(w, sv.cache, needDelete);
      ghost var kept := Kept(w, sv.cache, needDelete.Keys);
      var count := |needAdd.Keys| + |needToUpdate|;
      if count > 0 {
        PutAllConcat(map[], kept, EntriesOf(w, if count > MAX_CHANGED then all else few));
        if count > MAX_CHANGED {
          next := CreateRouteMap(w, files, all);
          return;
        }
        ProcessRoutes(w, few);
      }
      fakeRoutes := StableSort(fakeRoutes);
      var cache := ListValues(routesMap);
      next := Saved(cache, sv.exclude);
    }
  }

  lemma ExcludedPairs(w: World, cache: seq<Entry>, files: seq<Stamp>, needAdd: map<string, Stamp>, exclude: seq<Stamp>)
    requires StampPairs(files) == FilePairs(w)
    requires Stamped(needAdd, StampPairs(files) - CachePairs(cache) - StampPairs([]), files)
    requires forall f :: f in exclude <==> f in needAdd.Values
    ensures StampPairs(exclude) == Unrecorded(w, cache)
  {
    forall q | q in Unrecorded(w, cache) ensures q in StampPairs(exclude) {
      var f := needAdd[q.0];
      assert (q.0, f.fsPath) in FilePairs(w);
      assert f in needAdd.Values && f in exclude;
      assert (f.endpoint, f.fsPath) == q;
    }
    forall q | q in StampPairs(exclude) ensures q in Unrecorded(w, cache) {
      var f :| f in exclude && (f.endpoint, f.fsPath) == q;
      assert f in needAdd.Values;
      var k :| k in needAdd && needAdd[k] == f;
      assert (k, f.fsPath) in StampPairs(files) - CachePairs(cache);
    }
  }

  /******* Warm start equals cold start *******/

  /** Between two starts, a page with the same file and the same mtime has the same routes, and the
      built-in routes do not change. */
  ghost predicate EditsChangeMtimes(before: World, after: World) {
    && (forall h :: h in before.builtin <==> h in after.builtin)
    && forall m | m in before.pages && m in after.pages
         && before.pages[m].fsPath == after.pages[m].fsPath && before.pages[m].mtime == after.pages[m].mtime ::
         forall h :: h in before.pages[m].handlers <==> h in after.pages[m].handlers
  }

  /** Importing the changed pages registers the built-in routes and those of the pages imported;
      the imports may pull in other pages. */
  ghost predicate Registers(w: World, hs: seq<Handler>, modules: set<string>) {
    forall h :: h in hs <==> Has(w, h) && (h in w.builtin || h.moduleName in modules)
  }

  function ChangedModules(w: World, sv: Saved): set<string> {
    NeedAdd(w, sv) + set e | e in Changed(w, sv.cache) :: e.endpoint
  }

  /** A page on the exclude list, unknown to the cache and not imported by this start, has routes. */
  predicate Hides(w: World, sv: Saved, modules: set<string>, m: string) {
    && m in w.pages && m !in modules && w.pages[m].handlers != []
    && (m, w.pages[m].fsPath) in StampPairs(sv.exclude) && (m, w.pages[m].fsPath) !in CachePairs(sv.cache)
  }

  lemma {:induction false} KeptMembers(w: World, cache: seq<Entry>, needDelete: set<string>, e: Entry)
    ensures e in Kept(w, cache, needDelete) <==> e in cache && !Touched(w, e) && e.endpoint !in needDelete
    ensures e in Changed(w, cache) <==> e in cache && Touched(w, e)
  {
    if cache != [] {
      var n := |cache| - 1;
      KeptMembers(w, cache[..n], needDelete, e);
      assert cache == cache[..n] + [cache[n]];
    }
  }

  lemma {:induction false} EntriesMembers(w: World, hs: seq<Handler>, e: Entry)
    ensures e in EntriesOf(w, hs) <==> HandlerOf(e) in hs && e == EntryOf(w, HandlerOf(e))
  {
    if hs != [] {
      EntriesMembers(w, hs[..|hs| - 1], e);
      assert hs == hs[..|hs| - 1] + [hs[|hs| - 1]];
    }
  }

  lemma KeptIsCold(before: World, w: World, sv: Saved, e: Entry)
    requires WellFormed(before) && WellFormed(w) && EditsChangeMtimes(before, w) && Records(sv.cache, before)
    requires e in sv.cache && !Touched(w, e) && e.endpoint !in NeedDelete(w, sv.cache)
    ensures InCold(w, e)
  {
    assert InCold(before, e);
    var h := HandlerOf(e);
    if e.endpoint in before.pages {
      var q := (e.endpoint, e.fsPath);
      assert q in CachePairs(sv.cache);
      assert q in FilePairs(w);
      assert h in before.pages[e.endpoint].handlers <==> h in w.pages[e.endpoint].handlers;
    }
  }

  lemma ColdIsKept(before: World, w: World, sv: Saved, e: Entry)
    requires WellFormed(before) && WellFormed(w) && EditsChangeMtimes(before, w) && Records(sv.cache, before)
    requires InCold(w, e)
    requires e.endpoint in w.pages ==>
               (e.endpoint, e.fsPath) in CachePairs(sv.cache) &&
               forall o | o in sv.cache && o.endpoint == e.endpoint :: !Touched(w, o)
    ensures e in sv.cache && !Touched(w, e) && e.endpoint !in NeedDelete(w, sv.cache)
  {
    var m, h := e.endpoint, HandlerOf(e);
    if m in w.pages {
      var o :| o in sv.cache && (o.endpoint, o.fsPath) == (m, e.fsPath);
      assert InCold(before, o) && !Touched(w, o);
      assert before.pages[m].fsPath == w.pages[m].fsPath && before.pages[m].mtime == w.pages[m].mtime;
      assert h in before.pages[m].handlers <==> h in w.pages[m].handlers;
      assert InCold(before, e);
      OnlyOnePair(before, w, sv.cache, m);
    } else {
      assert h in before.builtin;
      assert InCold(before, e);
      BuiltinStays(before, w, sv.cache, m, h);
    }
  }

  lemma OnlyOnePair(before: World, w: World, cache: seq<Entry>, m: string)
    requires WellFormed(before) && Records(cache, before)
    requires m in before.pages && m in w.pages && before.pages[m].fsPath == w.pages[m].fsPath
    ensures m !in NeedDelete(w, cache)
  {
    forall q | q in CachePairs(cache) && q.0 == m ensures q in FilePairs(w) {
      var o :| o in cache && (o.endpoint, o.fsPath) == q;
      assert InCold(before, o);
    }
  }

  lemma BuiltinStays(before: World, w: World, cache: seq<Entry>, m: string, h: Handler)
    requires WellFormed(before) && Records(cache, before) && h in before.builtin && h.moduleName == m
    ensures m !in NeedDelete(w, cache)
  {
    forall q | q in CachePairs(cache) && q.0 == m ensures q.1 == EMPTY_FS_PATH {
      var o :| o in cache && (o.endpoint, o.fsPath) == q;
      assert InCold(before, o);
    }
  }

  /** What a start from the cache records is what a full import would record, on either side of the
      15-change limit, exactly if no page that was once excluded as routeless now hides routes. */
  lemma WarmIsCold(before: World, w: World, sv: Saved, few: seq<Handler>, all: seq<Handler>, modules: set<string>)
    requires WellFormed(before) && WellFormed(w) && EditsChangeMtimes(before, w) && Records(sv.cache, before)
    requires ChangedModules(w, sv) <= modules && (ChangeCount(w, sv) == 0 ==> modules == {})
    requires Registers(w, few, modules) && Registers(w, all, w.pages.Keys)
    ensures Records(Recorded(w, Some(sv), few, all), w) <==>
            ChangeCount(w, sv) > MAX_CHANGED || forall m :: !Hides(w, sv, modules, m)
  {
    var rec := Recorded(w, Some(sv), few, all);
    var hs := if ChangeCount(w, sv) == 0 then [] else if ChangeCount(w, sv) > MAX_CHANGED then all else few;
    var needDelete := NeedDelete(w, sv.cache);
    forall e ensures e in rec <==>
                     (e in sv.cache && !Touched(w, e) && e.endpoint !in needDelete) ||
                     (HandlerOf(e) in hs && e == EntryOf(w, HandlerOf(e)))
    {
      KeptMembers(w, sv.cache, needDelete, e);
      EntriesMembers(w, hs, e);
    }
    RecordedIsCold(before, w, sv, few, all, modules);
    if ChangeCount(w, sv) <= MAX_CHANGED {
      NothingImportedWithoutChanges(w, sv);
      forall e | InCold(w, e) && e !in rec ensures Hides(w, sv, modules, e.endpoint) {
        MissingIsHidden(before, w, sv, modules, e);
      }
      forall m | Hides(w, sv, modules, m) ensures exists e :: InCold(w, e) && e !in rec {
        HiddenIsMissing(w, sv, few, modules, m);
      }
    }
  }

  lemma RecordedIsCold(before: World, w: World, sv: Saved, few: seq<Handler>, all: seq<Handler>, modules: set<string>)
    requires WellFormed(before) && WellFormed(w) && EditsChangeMtimes(before, w) && Records(sv.cache, before)
    requires Registers(w, few, modules) && Registers(w, all, w.pages.Keys)
    ensures forall e | e in Recorded(w, Some(sv), few, all) :: InCold(w, e)
  {
    forall e | e in Recorded(w, Some(sv), few, all) ensures InCold(w, e) {
      KeptMembers(w, sv.cache, NeedDelete(w, sv.cache), e);
      EntriesMembers(w, few, e);
      EntriesMembers(w, all, e);
      if e in sv.cache && !Touched(w, e) && e.endpoint !in NeedDelete(w, sv.cache) {
        KeptIsCold(before, w, sv, e);
      }
    }
  }

  /** The pages in files that neither a cached route nor the exclude list knows. */
  function NewPages(w: World, sv: Saved): set<string> {
    set m | m in w.pages
            && (forall e | e in sv.cache :: !(e.endpoint == m && e.fsPath == w.pages[m].fsPath))
            && (forall f | f in sv.exclude :: !(f.endpoint == m && f.fsPath == w.pages[m].fsPath))
  }

  /** The cached routes whose page has another mtime now. */
  function StaleRoutes(w: World, sv: Saved): set<nat> {
    set i: nat | i < |sv.cache| && sv.cache[i].endpoint in w.pages
                 && w.pages[sv.cache[i].endpoint].mtime != sv.cache[i].mtime
  }

  lemma StaleMore(w: World, sv: Saved)
    requires sv.cache != []
    ensures var n := |sv.cache| - 1;
            StaleRoutes(w, sv) ==
            StaleRoutes(w, sv.(cache := sv.cache[..n])) + (if Touched(w, sv.cache[n]) then {n} else {})
  {
    var n := |sv.cache| - 1;
    var init := sv.(cache := sv.cache[..n]);
    forall i: nat ensures i in StaleRoutes(w, sv) <==>
                          i in StaleRoutes(w, init) || (i == n && Touched(w, sv.cache[n]))
    {
      assert i < n ==> init.cache[i] == sv.cache[i];
    }
  }

  lemma {:induction false} StaleCount(w: World, sv: Saved)
    ensures |Changed(w, sv.cache)| == |StaleRoutes(w, sv)|
    decreases |sv.cache|
  {
    if sv.cache == [] {
      assert StaleRoutes(w, sv) == {};
    } else {
      var n := |sv.cache| - 1;
      var init := sv.(cache := sv.cache[..n]);
      StaleCount(w, init);
      StaleMore(w, sv);
    }
  }

  /** A start imports only what has changed if no more than 15 pages and routes have, and imports nothing
      if none has. */
  lemma ShortStarts(w: World, sv: Saved)
    requires WellFormed(w)
    ensures Short(w, Some(sv)) <==> |NewPages(w, sv)| + |StaleRoutes(w, sv)| <= 15
    ensures ChangeCount(w, sv) == 0 <==> NewPages(w, sv) == {} && StaleRoutes(w, sv) == {}
  {
    StaleCount(w, sv);
    forall m ensures m in NeedAdd(w, sv) <==> m in NewPages(w, sv) {
      if m in w.pages {
        var q := (m, w.pages[m].fsPath);
        assert q in FilePairs(w);
        assert q in CachePairs(sv.cache) <==> exists e | e in sv.cache :: (e.endpoint, e.fsPath) == q;
        assert q in StampPairs(sv.exclude) <==> exists f | f in sv.exclude :: (f.endpoint, f.fsPath) == q;
      }
    }
    assert NeedAdd(w, sv) == NewPages(w, sv);
  }

  lemma NothingImportedWithoutChanges(w: World, sv: Saved)
    ensures ChangeCount(w, sv) == 0 ==> ChangedModules(w, sv) == {}
  {
  }

  lemma MissingIsHidden(before: World, w: World, sv: Saved, modules: set<string>, e: Entry)
    requires WellFormed(before) && WellFormed(w) && EditsChangeMtimes(before, w) && Records(sv.cache, before)
    requires ChangedModules(w, sv) <= modules && InCold(w, e)
    requires !(e in sv.cache && !Touched(w, e) && e.endpoint !in NeedDelete(w, sv.cache))
    requires e.endpoint in w.pages ==> e.endpoint !in modules
    ensures Hides(w, sv, modules, e.endpoint)
  {
    var m := e.endpoint;
    if m in w.pages {
      var q := (m, w.pages[m].fsPath);
      assert q in FilePairs(w);
      if q in CachePairs(sv.cache) {
        forall o | o in sv.cache && o.endpoint == m ensures !Touched(w, o) {
          KeptMembers(w, sv.cache, {}, o);
          assert o in Changed(w, sv.cache) ==> m in ChangedModules(w, sv);
        }
        ColdIsKept(before, w, sv, e);
      } else {
        assert q !in StampPairs(sv.exclude) ==> m in NeedAdd(w, sv);
      }
    } else {
      ColdIsKept(before, w, sv, e);
    }
  }

  lemma HiddenIsMissing(w: World, sv: Saved, few: seq<Handler>, modules: set<string>, m: string)
    requires WellFormed(w) && Registers(w, few, modules) && Hides(w, sv, modules, m)
    ensures exists e :: InCold(w, e) && e !in sv.cache && HandlerOf(e) !in few
  {
    var h := w.pages[m].handlers[0];
    var e := EntryOf(w, h);
    assert h.moduleName == m && HandlerOf(e) == h;
    assert InCold(w, e);
    assert e in sv.cache ==> (e.endpoint, e.fsPath) in CachePairs(sv.cache);
    assert h !in w.builtin;
  }

  /** Each method and path is registered once, and no method has a dot. */
  ghost predicate UniqueKeys(w: World) {
    && (forall e | InCold(w, e) :: '.' !in e.verb)
    && forall e, f :: InCold(w, e) && InCold(w, f) && Upper(e.verb) == Upper(f.verb) && e.path == f.path ==> e == f
  }

  lemma UpperHasNoDot(verb: string)
    requires '.' !in verb
    ensures '.' !in Upper(verb)
  {
    assert forall i | 0 <= i < |verb| :: Upper(verb)[i] == UpperChar(verb[i]);
  }

  lemma SplitAtDot(a: string, p: string, b: string, q: string)
    requires '.' !in a && '.' !in b && a + "." + p == b + "." + q
    ensures a == b && p == q
  {
    var s := a + "." + p;
    assert s[|a|] == '.' && s[|b|] == '.';
    assert forall i | 0 <= i < |a| :: s[i] == a[i] && a[i] in a;
    assert forall i | 0 <= i < |b| :: s[i] == b[i] && b[i] in b;
    assert |a| == |b|;
    assert s[..|a|] == a && s[|a| + 1..] == p;
    assert s[..|b|] == b && s[|b| + 1..] == q;
  }

  /** Two routes have the same key exactly if they have the same upper-case method and the same path. */
  lemma RouteKeyMeans(e: Entry, f: Entry)
    requires '.' !in e.verb && '.' !in f.verb
    ensures RouteKey(e) == RouteKey(f) <==> Upper(e.verb) == Upper(f.verb) && e.path == f.path
  {
    UpperHasNoDot(e.verb);
    UpperHasNoDot(f.verb);
    if RouteKey(e) == RouteKey(f) {
      SplitAtDot(Upper(e.verb), e.path, Upper(f.verb), f.path);
    }
  }

  lemma KeysAreUnique(w: World, e: Entry, f: Entry)
    requires UniqueKeys(w) && InCold(w, e) && InCold(w, f)
    ensures RouteKey(e) == RouteKey(f) ==> e == f
  {
    RouteKeyMeans(e, f);
  }

  /** No recorded route is lost: the map has exactly the recorded entries as its values. */
  lemma EveryRouteIsKept(w: World, es: seq<Entry>, e: Entry)
    requires UniqueKeys(w) && forall f | f in es :: InCold(w, f)
    ensures e in PutAll(map[], es).Values <==> e in es
  {
    var m := PutAll(map[], es);
    PutAllMembers(es);
    if e in es {
      assert InCold(w, m[RouteKey(e)]) && InCold(w, e);
      KeysAreUnique(w, m[RouteKey(e)], e);
      assert m[RouteKey(e)] == e;
    }
    if e in m.Values {
      var k :| k in m && m[k] == e;
    }
  }

  lemma {:induction false} PutAllMembers(es: seq<Entry>)
    ensures var m := PutAll(map[], es);
            && (forall k | k in m :: m[k] in es && RouteKey(m[k]) == k)
            && (forall e | e in es :: RouteKey(e) in m)
  {
    if es != [] {
      PutAllMembers(es[..|es| - 1]);
      assert es == es[..|es| - 1] + [es[|es| - 1]];
    }
  }

  /** For lists of entries of one world, the maps are equal exactly if the lists record the same. */
  lemma SameMap(w: World, a: seq<Entry>, b: seq<Entry>)
    requires UniqueKeys(w) && Records(b, w) && forall e | e in a :: InCold(w, e)
    ensures PutAll(map[], a) == PutAll(map[], b) <==> Records(a, w)
  {
    var p, q := PutAll(map[], a), PutAll(map[], b);
    PutAllMembers(a);
    PutAllMembers(b);
    forall e | e in b ensures q[RouteKey(e)] == e {
      assert InCold(w, e) && InCold(w, q[RouteKey(e)]);
      KeysAreUnique(w, e, q[RouteKey(e)]);
    }
    if p == q {
      forall e | InCold(w, e) ensures e in a {
        assert e in b;
        assert q[RouteKey(e)] == e;
      }
    }
    if Records(a, w) {
      forall k ensures k in p <==> k in q {
        assert k in p ==> p[k] in b;
        assert k in q ==> q[k] in a;
      }
      forall k | k in p ensures p[k] == q[k] {
        assert InCold(w, p[k]) && InCold(w, q[k]);
        KeysAreUnique(w, p[k], q[k]);
      }
    }
  }

  /** Warm start equals cold start: the route map built from the cache is the one a full import
      builds, exactly if the limit forces a full import anyway or no excluded page hides routes. */
  lemma WarmStartEqualsColdStart(
    before: World, w: World, sv: Saved, few: seq<Handler>, all: seq<Handler>, modules: set<string>)
    requires WellFormed(before) && WellFormed(w) && EditsChangeMtimes(before, w) && Records(sv.cache, before)
    requires ChangedModules(w, sv) <= modules && (ChangeCount(w, sv) == 0 ==> modules == {})
    requires Registers(w, few, modules) && Registers(w, all, w.pages.Keys) && UniqueKeys(w)
    ensures PutAll(map[], Recorded(w, Some(sv), few, all)) == PutAll(map[], Recorded(w, None, few, all)) <==>
            ChangeCount(w, sv) > MAX_CHANGED || forall m :: !Hides(w, sv, modules, m)
  {
    WarmIsCold(before, w, sv, few, all, modules);
    RecordedIsCold(before, w, sv, few, all, modules);
    forall e ensures e in EntriesOf(w, all) <==> InCold(w, e) {
      EntriesMembers(w, all, e);
    }
    SameMap(w, Recorded(w, Some(sv), few, all), EntriesOf(w, all));
  }

  /******* Restarts *******/

  ghost predicate ColdStart(w: World, next: Saved) {
    exists all :: Registers(w, all, w.pages.Keys) && Saves(w, None, PutAll(map[], EntriesOf(w, all)), next)
  }

  /** A start from sv with the world w, importing the given modules on the short path, and what it saves. */
  ghost predicate Restart(w: World, sv: Saved, modules: set<string>, next: Saved) {
    && ChangedModules(w, sv) <= modules && (ChangeCount(w, sv) == 0 ==> modules == {})
    && exists few, all ::
         && Registers(w, few, modules) && Registers(w, all, w.pages.Keys)
         && Saves(w, Some(sv), PutAll(map[], Recorded(w, Some(sv), few, all)), next)
  }

  function Routeless(w: World): set<Pair> {
    set m | m in w.pages && w.pages[m].handlers == [] :: (m, w.pages[m].fsPath)
  }

  /** The page has routes now and had none at the last full import, in the same file; and it was not
      known at the previous start either, or has moved with its mtime. */
  predicate Missed(full: World, previous: World, w: World, m: string) {
    && m in w.pages && w.pages[m].handlers != [] && (m, w.pages[m].fsPath) in Routeless(full)
    && (m in previous.pages && previous.pages[m].handlers != [] ==>
          previous.pages[m].fsPath != w.pages[m].fsPath && previous.pages[m].mtime == w.pages[m].mtime)
  }

  lemma KnownPages(w: World, cache: seq<Entry>, m: string, fsPath: string)
    requires WellFormed(w) && Records(cache, w) && forall h | h in w.builtin :: h.moduleName != m
    ensures (m, fsPath) in CachePairs(cache) <==>
            m in w.pages && w.pages[m].handlers != [] && w.pages[m].fsPath == fsPath
    ensures forall e | e in cache && e.endpoint == m :: m in w.pages && e.mtime == w.pages[m].mtime
  {
    if m in w.pages && w.pages[m].handlers != [] {
      assert InCold(w, EntryOf(w, w.pages[m].handlers[0]));
    }
    forall e | e in cache && e.endpoint == m
      ensures m in w.pages && w.pages[m].handlers != []
      ensures e.fsPath == w.pages[m].fsPath && e.mtime == w.pages[m].mtime
    {
      assert InCold(w, e);
    }
  }

  lemma TouchedIsChanged(w: World, sv: Saved, m: string)
    ensures m in ChangedModules(w, sv) <==>
            m in NeedAdd(w, sv) || exists e :: e in sv.cache && e.endpoint == m && Touched(w, e)
  {
    forall e ensures e in Changed(w, sv.cache) <==> e in sv.cache && Touched(w, e) {
      KeptMembers(w, sv.cache, {}, e);
    }
  }

  /** What a start hides, told from the worlds. */
  lemma HidesIsMissed(full: World, previous: World, w: World, sv: Saved, modules: set<string>, m: string)
    requires WellFormed(previous) && WellFormed(w) && EditsChangeMtimes(previous, w) && Records(sv.cache, previous)
    requires StampPairs(sv.exclude) == Routeless(full) && ChangedModules(w, sv) <= modules
    ensures Hides(w, sv, modules, m) <==> m !in modules && Missed(full, previous, w, m)
  {
    if m in w.pages {
      forall h | h in previous.builtin ensures h.moduleName != m {
        assert h in w.builtin;
      }
      KnownPages(previous, sv.cache, m, w.pages[m].fsPath);
      TouchedIsChanged(w, sv, m);
      if m in previous.pages && previous.pages[m].handlers != [] {
        var e := EntryOf(previous, previous.pages[m].handlers[0]);
        assert InCold(previous, e) && e in sv.cache;
      }
    }
  }

  /** The exclude list of a full import is exactly the pages without routes. */
  lemma ColdExcludesRouteless(w: World, cold: seq<Entry>)
    requires WellFormed(w) && Records(cold, w)
    ensures Unrecorded(w, cold) == Routeless(w)
  {
    forall m | m in w.pages ensures (m, w.pages[m].fsPath) in CachePairs(cold) <==> w.pages[m].handlers != [] {
      KnownPages(w, cold, m, w.pages[m].fsPath);
    }
  }

  /** The values of the map record a world exactly if the list put into it does. */
  lemma ValuesRecord(w: World, rec: seq<Entry>, cache: seq<Entry>)
    requires UniqueKeys(w) && (forall e | e in rec :: InCold(w, e))
    requires forall e :: e in cache <==> e in PutAll(map[], rec).Values
    ensures Records(cache, w) <==> Records(rec, w)
  {
    forall e ensures e in cache <==> e in rec {
      EveryRouteIsKept(w, rec, e);
    }
  }

  lemma AfterColdStart(w: World, next: Saved)
    requires WellFormed(w) && UniqueKeys(w) && ColdStart(w, next)
    ensures Records(next.cache, w) && StampPairs(next.exclude) == Routeless(w)
  {
    var all :| Registers(w, all, w.pages.Keys) && Saves(w, None, PutAll(map[], EntriesOf(w, all)), next);
    forall e ensures e in EntriesOf(w, all) <==> InCold(w, e) {
      EntriesMembers(w, all, e);
    }
    ValuesRecord(w, EntriesOf(w, all), next.cache);
    ColdExcludesRouteless(w, next.cache);
  }

  /** One restart: full is the world of the last full import, previous that of the last start. */
  lemma OneRestart(full: World, previous: World, w: World, sv: Saved, modules: set<string>, next: Saved)
    requires WellFormed(previous) && WellFormed(w) && UniqueKeys(w) && EditsChangeMtimes(previous, w)
    requires Records(sv.cache, previous) && StampPairs(sv.exclude) == Routeless(full)
    requires Restart(w, sv, modules, next)
    ensures Records(next.cache, w) <==>
            ChangeCount(w, sv) > MAX_CHANGED || forall m :: m in modules || !Missed(full, previous, w, m)
    ensures Records(next.cache, w) ==>
              StampPairs(next.exclude) == Routeless(if ChangeCount(w, sv) > MAX_CHANGED then w else full)
  {
    var few, all :|
      && Registers(w, few, modules) && Registers(w, all, w.pages.Keys)
      && Saves(w, Some(sv), PutAll(map[], Recorded(w, Some(sv), few, all)), next);
    WarmIsCold(previous, w, sv, few, all, modules);
    RecordedIsCold(previous, w, sv, few, all, modules);
    ValuesRecord(w, Recorded(w, Some(sv), few, all), next.cache);
    forall m ensures Hides(w, sv, modules, m) <==> m !in modules && Missed(full, previous, w, m) {
      HidesIsMissed(full, previous, w, sv, modules, m);
    }
    if Records(next.cache, w) {
      ColdExcludesRouteless(w, next.cache);
    }
  }

  /** The last start up to the i-th that imported everything. */
  function LastFull(worlds: seq<World>, saves: seq<Saved>, i: nat): (k: nat)
    requires i < |worlds| == |saves|
    ensures k <= i
  {
    if i == 0 || ChangeCount(worlds[i], saves[i - 1]) > MAX_CHANGED then i else LastFull(worlds, saves, i - 1)
  }

  /** The i-th start stays below the limit and does not import a page that was missed. */
  predicate Overlooks(worlds: seq<World>, saves: seq<Saved>, imports: seq<set<string>>, i: nat)
    requires i < |worlds| == |saves| == |imports|
  {
    && i > 0 && ChangeCount(worlds[i], saves[i - 1]) <= MAX_CHANGED
    && exists m | m in worlds[i].pages ::
         m !in imports[i] && Missed(worlds[LastFull(worlds, saves, i - 1)], worlds[i - 1], worlds[i], m)
  }

  ghost predicate RestartAt(worlds: seq<World>, saves: seq<Saved>, imports: seq<set<string>>, i: nat)
    requires 0 < i < |worlds| == |saves| == |imports|
  {
    EditsChangeMtimes(worlds[i - 1], worlds[i]) && Restart(worlds[i], saves[i - 1], imports[i], saves[i])
  }

  /** A full import and any number of restarts, with any edits that change mtimes in between. */
  ghost predicate Restarts(worlds: seq<World>, saves: seq<Saved>, imports: seq<set<string>>) {
    && |worlds| == |saves| == |imports| > 0 && ColdStart(worlds[0], saves[0])
    && (forall i | 0 <= i < |worlds| :: WellFormed(worlds[i]) && UniqueKeys(worlds[i]))
    && forall i | 0 < i < |worlds| :: RestartAt(worlds, saves, imports, i)
  }

  ghost predicate ColdAt(worlds: seq<World>, saves: seq<Saved>, i: nat)
    requires i < |worlds| == |saves|
  {
    Records(saves[i].cache, worlds[i])
  }

  ghost predicate ExcludeAt(worlds: seq<World>, saves: seq<Saved>, i: nat)
    requires i < |worlds| == |saves|
  {
    StampPairs(saves[i].exclude) == Routeless(worlds[LastFull(worlds, saves, i)])
  }

  lemma NextRestart(worlds: seq<World>, saves: seq<Saved>, imports: seq<set<string>>, n: nat)
    requires Restarts(worlds, saves, imports) && 0 < n < |worlds|
    requires ColdAt(worlds, saves, n - 1) && ExcludeAt(worlds, saves, n - 1)
    ensures ColdAt(worlds, saves, n) <==> !Overlooks(worlds, saves, imports, n)
    ensures ColdAt(worlds, saves, n) ==> ExcludeAt(worlds, saves, n)
  {
    assert RestartAt(worlds, saves, imports, n);
    OneRestart(worlds[LastFull(worlds, saves, n - 1)], worlds[n - 1], worlds[n], saves[n - 1], imports[n], saves[n]);
  }

  predicate Follows(cold: seq<bool>, excludes: seq<bool>, overlooks: seq<bool>, i: nat)
    requires 0 < i < |cold| == |excludes| == |overlooks|
  {
    cold[i - 1] && excludes[i - 1] ==> (cold[i] <==> !overlooks[i]) && (cold[i] ==> excludes[i])
  }

  lemma {:induction false} Chain(cold: seq<bool>, excludes: seq<bool>, overlooks: seq<bool>, n: nat)
    requires n < |cold| == |excludes| == |overlooks| && cold[0] && excludes[0] && !overlooks[0]
    requires forall i | 0 < i < |cold| :: Follows(cold, excludes, overlooks, i)
    ensures (forall i | 0 <= i <= n :: cold[i]) <==> (forall i | 0 <= i <= n :: !overlooks[i])
    ensures (forall i | 0 <= i <= n :: cold[i]) ==> excludes[n]
  {
    if n > 0 {
      Chain(cold, excludes, overlooks, n - 1);
      assert Follows(cold, excludes, overlooks, n);
    }
  }

  /** Over any number of restarts, every saved cache is that of a full import if and only if no start
      below the limit leaves out a page that had no routes at the last full import and has since
      gained some in the same file. */
  lemma EveryRestartIsCold(worlds: seq<World>, saves: seq<Saved>, imports: seq<set<string>>)
    requires Restarts(worlds, saves, imports)
    ensures (forall i | 0 <= i < |worlds| :: ColdAt(worlds, saves, i)) <==>
            forall i | 0 <= i < |worlds| :: !Overlooks(worlds, saves, imports, i)
  {
    var n := |worlds|;
    var cold, excludes := ColdBits(worlds, saves), ExcludeBits(worlds, saves);
    var overlooks := OverlookBits(worlds, saves, imports);
    RestartFollows(worlds, saves, imports, 0);
    forall i | 0 < i < n ensures Follows(cold, excludes, overlooks, i) {
      RestartFollows(worlds, saves, imports, i);
    }
    Chain(cold, excludes, overlooks, n - 1);
  }

  ghost function ColdBits(worlds: seq<World>, saves: seq<Saved>): (bits: seq<bool>)
    requires |worlds| == |saves|
    ensures |bits| == |worlds| && forall i | 0 <= i < |worlds| :: bits[i] == ColdAt(worlds, saves, i)
  {
    seq(|worlds|, i requires 0 <= i < |worlds| => ColdAt(worlds, saves, i))
  }

  ghost function ExcludeBits(worlds: seq<World>, saves: seq<Saved>): (bits: seq<bool>)
    requires |worlds| == |saves|
    ensures |bits| == |worlds| && forall i | 0 <= i < |worlds| :: bits[i] == ExcludeAt(worlds, saves, i)
  {
    seq(|worlds|, i requires 0 <= i < |worlds| => ExcludeAt(worlds, saves, i))
  }

  ghost function OverlookBits(worlds: seq<World>, saves: seq<Saved>, imports: seq<set<string>>): (bits: seq<bool>)
    requires |worlds| == |saves| == |imports|
    ensures |bits| == |worlds|
    ensures forall i | 0 <= i < |worlds| :: bits[i] == Overlooks(worlds, saves, imports, i)
  {
    seq(|worlds|, i requires 0 <= i < |worlds| => Overlooks(worlds, saves, imports, i))
  }

  lemma RestartFollows(worlds: seq<World>, saves: seq<Saved>, imports: seq<set<string>>, i: nat)
    requires Restarts(worlds, saves, imports) && i < |worlds|
    ensures i == 0 ==> ColdAt(worlds, saves, 0) && ExcludeAt(worlds, saves, 0) && !Overlooks(worlds, saves, imports, 0)
    ensures i > 0 && ColdAt(worlds, saves, i - 1) && ExcludeAt(worlds, saves, i - 1) ==>
              && (ColdAt(worlds, saves, i) <==> !Overlooks(worlds, saves, imports, i))
              && (ColdAt(worlds, saves, i) ==> ExcludeAt(worlds, saves, i))
  {
    if i == 0 {
      AfterColdStart(worlds[0], saves[0]);
    } else if ColdAt(worlds, saves, i - 1) && ExcludeAt(worlds, saves, i - 1) {
      NextRestart(worlds, saves, imports, i);
    }
  }

  /******* A page that gains routes *******/

  const NO_ROUTES := World(map["m" := Page("m.py", 1, [])], [])
  const ONE_ROUTE := World(map["m" := Page("m.py", 2, [Handler("GET", "/a", "m")])], [])
  const EXCLUDED := Saved([], [Stamp("m", 1, "m.py")])

  /** One page, without routes at the full import and with one route and a new mtime at the next
      start: nothing is imported and the route is not in the map. */
  lemma ExcludedPageHides()
    ensures Restarted(NO_ROUTES, ONE_ROUTE, EXCLUDED) && Hides(ONE_ROUTE, EXCLUDED, {}, "m")
    ensures var all := [Handler("GET", "/a", "m")];
            && Registers(ONE_ROUTE, [], {}) && Registers(ONE_ROUTE, all, ONE_ROUTE.pages.Keys)
            && PutAll(map[], Recorded(ONE_ROUTE, Some(EXCLUDED), [], all)) == map[]
            && PutAll(map[], Recorded(ONE_ROUTE, None, [], all)) == map["GET./a" := Entry("m", "GET", "/a", 2, "m.py")]
  {
    ExcludedIsNoChange(ONE_ROUTE, EXCLUDED);
    OneEntry(ONE_ROUTE, Handler("GET", "/a", "m"));
    OnePage();
  }

  /** A change from one world to the next, with a cache that records the first. */
  ghost predicate Restarted(before: World, w: World, sv: Saved) {
    && WellFormed(before) && WellFormed(w) && UniqueKeys(w) && EditsChangeMtimes(before, w)
    && Records(sv.cache, before) && StampPairs(sv.exclude) == Routeless(before)
  }

  lemma OnePage()
    ensures Restarted(NO_ROUTES, ONE_ROUTE, EXCLUDED)
    ensures Registers(ONE_ROUTE, [], {}) && Registers(ONE_ROUTE, [Handler("GET", "/a", "m")], ONE_ROUTE.pages.Keys)
  {
    var h := Handler("GET", "/a", "m");
    forall o ensures Has(ONE_ROUTE, o) <==> o == h {
      assert ONE_ROUTE.pages["m"].handlers == [h];
    }
    forall o ensures !Has(NO_ROUTES, o) {
      assert NO_ROUTES.pages["m"].handlers == [];
    }
    var f := EXCLUDED.exclude[0];
    assert f in EXCLUDED.exclude;
    forall q ensures q in StampPairs(EXCLUDED.exclude) <==> q in Routeless(NO_ROUTES) {
      assert q in StampPairs(EXCLUDED.exclude) <==> q == (f.endpoint, f.fsPath);
      assert "m" in NO_ROUTES.pages && NO_ROUTES.pages["m"].handlers == [];
    }
  }

  lemma ExcludedIsNoChange(w: World, sv: Saved)
    requires w.pages.Keys == {"m"} && w.pages["m"].fsPath == "m.py" && sv == Saved([], [Stamp("m", 1, "m.py")])
    ensures ChangeCount(w, sv) == 0 && ("m", "m.py") in StampPairs(sv.exclude)
  {
    var f := Stamp("m", 1, "m.py");
    assert f in sv.exclude && (f.endpoint, f.fsPath) == ("m", "m.py");
    assert FilePairs(w) - StampPairs(sv.exclude) == {};
    assert NeedAdd(w, sv) == {};
  }

  lemma OneEntry(w: World, h: Handler)
    requires h == Handler("GET", "/a", "m") && w.pages == map["m" := Page("m.py", 2, [h])]
    ensures PutAll(map[], EntriesOf(w, [h])) == map["GET./a" := Entry("m", "GET", "/a", 2, "m.py")]
  {
    var e := Entry("m", "GET", "/a", 2, "m.py");
    assert [h][..0] == [];
    assert EntriesOf(w, [h]) == EntriesOf(w, []) + [e] == [e];
    assert [e][..0] == [];
    GetIsUpper();
    assert PutAll(map[], [e]) == PutAll(map[], [])[RouteKey(e) := e];
    assert RouteKey(e) == "GET./a";
  }
}
