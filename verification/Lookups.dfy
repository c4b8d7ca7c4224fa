/** find_route: choosing a route for a request, with the fallbacks for HEAD, OPTIONS, 405 and 404,
    and the method sets that lookups themselves change (frontik/routing.py). */
module Lookups {
  import opened Common
  import opened Routing

  /** Starlette's path regex, as a relation between a route's pattern and a path. */
  type Matcher = (string, string) -> bool

  function UpperChar(c: char): char {
    if 'a' <= c <= 'z' then c - 'a' + 'A' else c
  }

  function Upper(s: string): (r: string)
    ensures |r| == |s|
  {
    seq(|s|, i requires 0 <= i < |s| => UpperChar(s[i]))
  }

  function StripSlashes(path: string): string {
    if path != "" && path[|path| - 1] == '/' then StripSlashes(path[..|path| - 1]) else path
  }

  /** The trailing slashes both add_api_route and find_route remove. */
  function Normalize(path: string): string {
    if path != "/" then StripSlashes(path) else path
  }

  /** _fastapi_routes, and the methods of the three fallback routes. */
  datatype Tables = Tables(routes: seq<Route>, preflight: set<string>, notAllowed: set<string>, notFound: set<string>)

  datatype Outcome = Found(index: nat) | Preflight | NotAllowed(allow: set<string>) | NotFound

  predicate Serves(m: Matcher, r: Route, path: string, verb: string) {
    (r.api ==> verb in r.methods) && m(r.path, path)
  }

  function ServesTest(m: Matcher, path: string, verb: string): Test {
    r => Serves(m, r, path, verb)
  }

  function Exact(m: Matcher, routes: seq<Route>, path: string, verb: string, i: nat): Option<nat>
    requires i <= |routes|
    decreases |routes| - i
  {
    if i == |routes| then None
    else if Serves(m, routes[i], path, verb) then Some(i)
    else Exact(m, routes, path, verb, i + 1)
  }

  /** A route whose methods are offered: it matches the path but not the method, and has no OPTIONS. */
  predicate Offers(m: Matcher, r: Route, path: string, verb: string) {
    r.api && "OPTIONS" !in r.methods && verb !in r.methods && m(r.path, path)
  }

  function Allowed(m: Matcher, routes: seq<Route>, path: string, verb: string): set<string> {
    if routes == [] then {}
    else
      var n := |routes| - 1;
      Allowed(m, routes[..n], path, verb) + (if Offers(m, routes[n], path, verb) then routes[n].methods else {})
  }

  function AddMethod(t: Tables, o: Outcome, verb: string): Tables {
    match o
    case Found(i) =>
      if i < |t.routes| && t.routes[i].api
      then t.(routes := t.routes[i := t.routes[i].(methods := t.routes[i].methods + {verb})])
      else t
    case Preflight => t.(preflight := t.preflight + {verb})
    case NotAllowed(_) => t.(notAllowed := t.notAllowed + {verb})
    case NotFound => t.(notFound := t.notFound + {verb})
  }

  function Lookup(m: Matcher, t: Tables, path0: string, verb: string): (r: (Tables, Outcome))
    decreases if verb == "HEAD" then 1 else 0
  {
    var path := Normalize(path0);
    var exact := Exact(m, t.routes, path, Upper(verb), 0);
    if exact.Some? then (t, Found(exact.value))
    else if verb == "HEAD" then
      var get := Lookup(m, t, path, "GET");
      (AddMethod(get.0, get.1, "HEAD"), get.1)
    else
      var o := if verb == "OPTIONS" then Preflight
               else
                 var allow := Allowed(m, t.routes, path, Upper(verb));
                 if allow != {} then NotAllowed(allow) else NotFound;
      (AddMethod(t, o, verb), o)
  }

  datatype Request = Request(path: string, verb: string)

  function After(m: Matcher, t: Tables, history: seq<Request>): Tables {
    if history == [] then t
    else
      var n := |history| - 1;
      Lookup(m, After(m, t, history[..n]), history[n].path, history[n].verb).0
  }

  /******* The code *******/

  class Router {
    const matches: Matcher
    var routes: seq<Route>
    var preflight: set<string>
    var notAllowed: set<string>
    var notFound: set<string>

    function View(): Tables
      reads this
    {
      Tables(routes, preflight, notAllowed, notFound)
    }

    constructor (matches: Matcher, t: Tables)
      ensures this.matches == matches && View() == t
    {
      this.matches := matches;
      routes, preflight, notAllowed, notFound := t.routes, t.preflight, t.notAllowed, t.notFound;
    }

    method FindExact(path: string, verb: string) returns (found: Option<nat>)
      ensures found == Exact(matches, routes, path, verb, 0)
    {
      var i := 0;
      while i < |routes|
        invariant i <= |routes|
        invariant Exact(matches, routes, path, verb, 0) == Exact(matches, routes, path, verb, i)
      {
        if !(routes[i].api && verb !in routes[i].methods) && matches(routes[i].path, path) {
          return Some(i);
        }
        i := i + 1;
      }
      return None;
    }

    method FindPartial(path: string, verb: string) returns (allowed: set<string>)
      ensures allowed == Allowed(matches, routes, path, verb)
    {
      allowed := {};
      for i := 0 to |routes|
        invariant allowed == Allowed(matches, routes[..i], path, verb)
      {
        assert routes[..i + 1][..i] == routes[..i];
        var route := routes[i];
        if !(route.api && "OPTIONS" in route.methods) {
          if route.api && matches(route.path, path) && verb !in route.methods {
            allowed := allowed + route.methods;
          }
        }
      }
      assert routes[..|routes|] == routes;
    }

    method FindRoute(path0: string, verb: string) returns (outcome: Outcome)
      modifies this
      ensures (View(), outcome) == Lookup(matches, old(View()), path0, verb)
      decreases if verb == "HEAD" then 1 else 0
    {
      var path := Normalize(path0);
      var exact := FindExact(path, Upper(verb));
      if exact.Some? {
        return Found(exact.value);
      }
      if verb == "HEAD" {
        outcome := FindRoute(path, "GET");
        Record(outcome, "HEAD");
      } else if verb == "OPTIONS" {
        outcome := Preflight;
        Record(outcome, verb);
      } else {
        var allow := FindPartial(path, Upper(verb));
        outcome := if allow != {} then NotAllowed(allow) else NotFound;
        Record(outcome, verb);
      }
    }

    /** route.methods.add(method) on the chosen route. */
    method Record(outcome: Outcome, verb: string)
      modifies this
      ensures View() == AddMethod(old(View()), outcome, verb)
    {
      match outcome {
        case Found(i) =>
          if i < |routes| && routes[i].api {
            routes := routes[i := routes[i].(methods := routes[i].methods + {verb})];
          }
        case Preflight => preflight := preflight + {verb};
        case NotAllowed(_) => notAllowed := notAllowed + {verb};
        case NotFound => notFound := notFound + {verb};
      }
    }
  }

  /******* Methods and paths *******/

  lemma {:induction false} StripTwice(path: string)
    ensures StripSlashes(StripSlashes(path)) == StripSlashes(path) && StripSlashes(path) != "/"
  {
    if path != "" && path[|path| - 1] == '/' { StripTwice(path[..|path| - 1]); }
  }

  /** Stripping takes exactly the slashes at the end. */
  lemma {:induction false} StripTakesSlashes(path: string)
    ensures var r := StripSlashes(path);
            && r <= path && (r != "" ==> r[|r| - 1] != '/')
            && forall i | |r| <= i < |path| :: path[i] == '/'
  {
    if path != "" && path[|path| - 1] == '/' { StripTakesSlashes(path[..|path| - 1]); }
  }

  /** The root path is left alone; any other loses its trailing slashes and nothing else. */
  lemma NormalizeMeans(path: string, r: string)
    ensures r == Normalize(path) <==>
            if path == "/" then r == "/"
            else r <= path && (r != "" ==> r[|r| - 1] != '/') && forall i | |r| <= i < |path| :: path[i] == '/'
  {
    StripTakesSlashes(path);
    var n := StripSlashes(path);
    if path != "/" && r <= path && (r != "" ==> r[|r| - 1] != '/') && forall i | |r| <= i < |path| :: path[i] == '/' {
      assert n != "" ==> n[|n| - 1] == path[|n| - 1];
      assert r != "" ==> r[|r| - 1] == path[|r| - 1];
      assert |r| == |n|;
      assert r == path[..|r|] && n == path[..|n|];
    }
  }

  lemma NormalizeTwice(path: string)
    ensures Normalize(Normalize(path)) == Normalize(path)
  {
    StripTwice(path);
  }

  /** A character and its capital: the 26 letters a to z have one, other characters are their own. */
  predicate Capital(c: char, u: char) {
    if 'a' <= c <= 'z' then c as int - u as int == 32 else u == c
  }

  lemma UpperMeans(s: string, r: string)
    ensures r == Upper(s) <==> |r| == |s| && forall i | 0 <= i < |s| :: Capital(s[i], r[i])
  {
    assert forall i | 0 <= i < |s| :: Upper(s)[i] == UpperChar(s[i]);
    if |r| == |s| && forall i | 0 <= i < |s| :: Capital(s[i], r[i]) {
      forall i | 0 <= i < |s| ensures r[i] == Upper(s)[i] {
        assert Capital(s[i], r[i]);
      }
    }
  }

  /** A lower-case method finds the route that its upper-case form finds. */
  lemma CaseOfMethod(m: Matcher, t: Tables, path0: string, verb: string)
    ensures Lookup(m, t, path0, verb).1.Found? && verb != "HEAD" ==>
              Lookup(m, t, path0, Upper(verb)) == Lookup(m, t, path0, verb)
  {
    UpperMeans(verb, Upper(verb));
    UpperMeans(Upper(verb), Upper(verb));
  }

  /** A table of one route, without the words of the model: the route is found exactly if the pattern
      matches and it is a mount, which takes every method, or lists the method in upper case; otherwise
      OPTIONS gets the preflight answer, and other methods 405 exactly if the pattern matches and the
      route has methods but not OPTIONS. */
  lemma OneRoute(m: Matcher, t: Tables, r: Route, path0: string, verb: string)
    requires t.routes == [r] && verb != "HEAD"
    ensures Lookup(m, t, path0, verb).1 ==
            if m(r.path, Normalize(path0)) && (!r.api || Upper(verb) in r.methods) then Found(0)
            else if verb == "OPTIONS" then Preflight
            else if m(r.path, Normalize(path0)) && r.methods != {} && "OPTIONS" !in r.methods then NotAllowed(r.methods)
            else NotFound
  {
    Answer(m, t, path0, verb);
    var served := Serves(m, r, Normalize(path0), Upper(verb));
    assert t.routes[0] == r;
    if Lookup(m, t, path0, verb).1.NotAllowed? {
      var allow := Lookup(m, t, path0, verb).1.allow;
      assert forall x :: x in allow <==> Offering(m, r, Normalize(path0)) && x in r.methods;
      assert allow == r.methods;
    }
  }

  /******* What one lookup answers *******/

  lemma {:induction false} ExactIsFirst(m: Matcher, routes: seq<Route>, path: string, verb: string, i: nat)
    requires i <= |routes|
    ensures match Exact(m, routes, path, verb, i)
            case None => forall j | i <= j < |routes| :: !Serves(m, routes[j], path, verb)
            case Some(k) => i <= k < |routes| && Serves(m, routes[k], path, verb) &&
                            forall j | i <= j < k :: !Serves(m, routes[j], path, verb)
    decreases |routes| - i
  {
    if i < |routes| && !Serves(m, routes[i], path, verb) {
      ExactIsFirst(m, routes, path, verb, i + 1);
    }
  }

  lemma {:induction false} AllowedMembers(m: Matcher, routes: seq<Route>, path: string, verb: string, x: string)
    ensures x in Allowed(m, routes, path, verb) <==>
            exists i | 0 <= i < |routes| :: Offers(m, routes[i], path, verb) && x in routes[i].methods
  {
    if routes != [] {
      var n := |routes| - 1;
      AllowedMembers(m, routes[..n], path, verb, x);
      assert forall i | 0 <= i < n :: routes[..n][i] == routes[i];
    }
  }

  /** Matches the path, does not handle OPTIONS itself, and has methods to offer. */
  predicate Offering(m: Matcher, r: Route, path: string) {
    r.api && "OPTIONS" !in r.methods && r.methods != {} && m(r.path, path)
  }

  /** The answers to any request that is not HEAD: the first serving route; for OPTIONS the preflight
      route when none serves; 405 exactly when none serves but some offering route matches the path,
      and then Allow lists exactly the methods of those routes; 404 otherwise. */
  lemma Answer(m: Matcher, t: Tables, path0: string, verb: string)
    requires verb != "HEAD"
    ensures var path := Normalize(path0);
            var served := exists i | 0 <= i < |t.routes| :: Serves(m, t.routes[i], path, Upper(verb));
            var offered := exists i | 0 <= i < |t.routes| :: Offering(m, t.routes[i], path);
            match Lookup(m, t, path0, verb).1
            case Found(k) => k < |t.routes| && Serves(m, t.routes[k], path, Upper(verb)) &&
                             forall j | 0 <= j < k :: !Serves(m, t.routes[j], path, Upper(verb))
            case NotAllowed(allow) =>
              && !served && offered && verb != "OPTIONS"
              && forall x :: x in allow <==>
                   exists i | 0 <= i < |t.routes| :: Offering(m, t.routes[i], path) && x in t.routes[i].methods
            case NotFound => !served && !offered && verb != "OPTIONS"
            case Preflight => !served && verb == "OPTIONS"
  {
    var path := Normalize(path0);
    ExactIsFirst(m, t.routes, path, Upper(verb), 0);
    var served := exists i | 0 <= i < |t.routes| :: Serves(m, t.routes[i], path, Upper(verb));
    if !served {
      NothingOffered(m, t.routes, path, Upper(verb));
    }
  }

  lemma NothingOffered(m: Matcher, routes: seq<Route>, path: string, verb: string)
    requires forall i | 0 <= i < |routes| :: !Serves(m, routes[i], path, verb)
    ensures Allowed(m, routes, path, verb) == {} <==> forall i | 0 <= i < |routes| :: !Offering(m, routes[i], path)
    ensures forall x :: x in Allowed(m, routes, path, verb) <==>
              exists i | 0 <= i < |routes| :: Offering(m, routes[i], path) && x in routes[i].methods
  {
    var allow := Allowed(m, routes, path, verb);
    OffersIsOffering(m, routes, path, verb);
    forall x ensures x in allow <==>
                     exists i | 0 <= i < |routes| :: Offering(m, routes[i], path) && x in routes[i].methods
    {
      AllowedMembers(m, routes, path, verb, x);
    }
    if i :| 0 <= i < |routes| && Offering(m, routes[i], path) {
      var x :| x in routes[i].methods;
      assert x in allow;
    }
  }

  /** The answer to a HEAD request: the first route that lists HEAD; if there is none, what the path
      offers to GET, which is the first route that serves GET, or 405 with exactly the methods of the
      offering routes if there are any, or 404. It is never the preflight route. */
  lemma HeadAnswer(m: Matcher, t: Tables, path0: string)
    ensures var path := Normalize(path0);
            var head := exists i | 0 <= i < |t.routes| :: Serves(m, t.routes[i], path, "HEAD");
            var get := exists i | 0 <= i < |t.routes| :: Serves(m, t.routes[i], path, "GET");
            var offered := exists i | 0 <= i < |t.routes| :: Offering(m, t.routes[i], path);
            match Lookup(m, t, path0, "HEAD").1
            case Found(k) =>
              && (head || get) && k < |t.routes|
              && Serves(m, t.routes[k], path, if head then "HEAD" else "GET")
              && forall j | 0 <= j < k :: !Serves(m, t.routes[j], path, if head then "HEAD" else "GET")
            case NotAllowed(allow) =>
              && !head && !get && offered
              && forall x :: x in allow <==>
                   exists i | 0 <= i < |t.routes| :: Offering(m, t.routes[i], path) && x in t.routes[i].methods
            case NotFound => !head && !get && !offered
            case Preflight => false
  {
    var path := Normalize(path0);
    GetIsUpper();
    NormalizeTwice(path0);
    ExactIsFirst(m, t.routes, path, "HEAD", 0);
    ExactIsFirst(m, t.routes, path, "GET", 0);
    if !exists i | 0 <= i < |t.routes| :: Serves(m, t.routes[i], path, "GET") {
      NothingOffered(m, t.routes, path, "GET");
    }
  }

  /** What a lookup changes: at most the methods of the route it chooses, by the request's method and,
      if a HEAD request falls back on GET, by GET too where a fallback route is chosen. */
  lemma LookupChanges(m: Matcher, t: Tables, path0: string, verb: string)
    ensures var path := Normalize(path0);
            var (t', o) := Lookup(m, t, path0, verb);
            var served := exists i | 0 <= i < |t.routes| :: Serves(m, t.routes[i], path, Upper(verb));
            var gained := if served then {} else if verb == "HEAD" then {"GET", "HEAD"} else {verb};
            && t'.preflight == (if o.Preflight? then t.preflight + gained else t.preflight)
            && t'.notAllowed == (if o.NotAllowed? then t.notAllowed + gained else t.notAllowed)
            && t'.notFound == (if o.NotFound? then t.notFound + gained else t.notFound)
            && |t'.routes| == |t.routes|
            && forall i | 0 <= i < |t.routes| ::
                 t'.routes[i] ==
                 if !served && o == Found(i) && t.routes[i].api
                 then t.routes[i].(methods := t.routes[i].methods + {"HEAD"}) else t.routes[i]
  {
    var path := Normalize(path0);
    GetIsUpper();
    NormalizeTwice(path0);
    ExactIsFirst(m, t.routes, path, Upper(verb), 0);
    ExactIsFirst(m, t.routes, path, "GET", 0);
  }

  lemma OffersIsOffering(m: Matcher, routes: seq<Route>, path: string, verb: string)
    requires forall i | 0 <= i < |routes| :: !Serves(m, routes[i], path, verb)
    ensures forall i | 0 <= i < |routes| :: Offering(m, routes[i], path) ==> Offers(m, routes[i], path, verb)
    ensures forall i | 0 <= i < |routes| :: forall x | x in routes[i].methods ::
              Offers(m, routes[i], path, verb) ==> Offering(m, routes[i], path)
  {
    forall i | 0 <= i < |routes| && Offering(m, routes[i], path) ensures Offers(m, routes[i], path, verb) {
      assert !Serves(m, routes[i], path, verb);
    }
  }

  lemma {:induction false} ExactIsScan(m: Matcher, routes: seq<Route>, path: string, verb: string, i: nat)
    requires i <= |routes|
    ensures var k := Exact(m, routes, path, verb, i);
            var f := First(routes[i..], ServesTest(m, path, verb));
            if k.None? then f.None? else k.value < |routes| && f == Some(routes[k.value])
    decreases |routes| - i
  {
    if i < |routes| {
      assert routes[i..][1..] == routes[i + 1..];
      ExactIsScan(m, routes, path, verb, i + 1);
    }
  }

  lemma FoundIsExact(m: Matcher, t: Tables, path0: string, verb: string)
    requires verb != "HEAD" && Lookup(m, t, path0, verb).1.Found?
    ensures Exact(m, t.routes, Normalize(path0), Upper(verb), 0) == Some(Lookup(m, t, path0, verb).1.index)
  {
  }

  /** On the sorted table a served request gets the most specific of all routes that serve it, the
      earliest registered among equals. */
  lemma MostSpecificRouteWins(m: Matcher, registered: seq<Route>, t: Tables, path0: string, verb: string)
    requires t.routes == StableSort(registered)
    requires verb != "HEAD" && Lookup(m, t, path0, verb).1.Found?
    ensures var k := Lookup(m, t, path0, verb).1.index;
            && k < |t.routes|
            && exists i: nat :: IsChoice(registered, i, ServesTest(m, Normalize(path0), Upper(verb)))
                                && registered[i] == t.routes[k]
  {
    var path := Normalize(path0);
    FoundIsExact(m, t, path0, verb);
    ExactIsScan(m, t.routes, path, Upper(verb), 0);
    assert t.routes[0..] == t.routes;
    ScanFindsChoice(registered, ServesTest(m, path, Upper(verb)));
  }

  /** The route chosen, after the lookup, accepts the request's method: its handler will run. */
  predicate Accepts(t: Tables, o: Outcome, verb: string) {
    match o
    case Found(i) => i < |t.routes| && (t.routes[i].api ==> verb in t.routes[i].methods)
    case Preflight => verb in t.preflight
    case NotAllowed(_) => verb in t.notAllowed
    case NotFound => verb in t.notFound
  }

  lemma ChosenRouteAccepts(m: Matcher, t: Tables, path0: string, verb: string)
    requires Upper(verb) == verb
    ensures Accepts(Lookup(m, t, path0, verb).0, Lookup(m, t, path0, verb).1, verb)
  {
    var path := Normalize(path0);
    ExactIsFirst(m, t.routes, path, Upper(verb), 0);
    if verb == "HEAD" && Exact(m, t.routes, path, Upper(verb), 0).None? {
      ExactIsFirst(m, t.routes, Normalize(path), Upper("GET"), 0);
    }
  }

  /******* Histories *******/

  /** The same route, having gained at most HEAD. */
  predicate Grew(r: Route, r': Route) {
    r' == r.(methods := r'.methods) && r.methods <= r'.methods <= r.methods + {"HEAD"}
    && (r'.methods != r.methods ==> r.api && "GET" in r.methods)
  }

  predicate AllGrew(routes: seq<Route>, routes': seq<Route>) {
    |routes'| == |routes| && forall i | 0 <= i < |routes| :: Grew(routes[i], routes'[i])
  }

  lemma LookupGrows(m: Matcher, t: Tables, routes: seq<Route>, path0: string, verb: string)
    requires AllGrew(routes, t.routes)
    ensures AllGrew(routes, Lookup(m, t, path0, verb).0.routes)
  {
    var path := Normalize(path0);
    if verb == "HEAD" && Exact(m, t.routes, path, Upper(verb), 0).None? {
      ExactIsFirst(m, t.routes, Normalize(path), Upper("GET"), 0);
      GetIsUpper();
    }
  }

  lemma GetIsUpper()
    ensures Upper("GET") == "GET" && Upper("HEAD") == "HEAD"
  {
    assert Upper("GET")[0] == 'G' && Upper("GET")[1] == 'E' && Upper("GET")[2] == 'T';
    assert Upper("HEAD")[0] == 'H' && Upper("HEAD")[1] == 'E' && Upper("HEAD")[2] == 'A' && Upper("HEAD")[3] == 'D';
  }

  lemma {:induction false} HistoryGrows(m: Matcher, t: Tables, history: seq<Request>)
    ensures AllGrew(t.routes, After(m, t, history).routes)
  {
    if history != [] {
      var n := |history| - 1;
      HistoryGrows(m, t, history[..n]);
      LookupGrows(m, After(m, t, history[..n]), t.routes, history[n].path, history[n].verb);
    }
  }

  lemma {:induction false} SameExact(
    m: Matcher, routes: seq<Route>, routes': seq<Route>, path: string, verb: string, i: nat)
    requires AllGrew(routes, routes') && verb != "HEAD" && i <= |routes|
    ensures Exact(m, routes, path, verb, i) == Exact(m, routes', path, verb, i)
    decreases |routes| - i
  {
    if i < |routes| {
      assert Grew(routes[i], routes'[i]);
      SameExact(m, routes, routes', path, verb, i + 1);
    }
  }

  lemma SameAllowed(m: Matcher, routes: seq<Route>, routes': seq<Route>, path: string, verb: string)
    requires AllGrew(routes, routes') && verb != "HEAD"
    ensures var a, b := Allowed(m, routes, path, verb), Allowed(m, routes', path, verb);
            a <= b <= a + {"HEAD"} && (a == {} <==> b == {})
  {
    var a, b := Allowed(m, routes, path, verb), Allowed(m, routes', path, verb);
    forall x ensures x in a ==> x in b {
      AllowedMembers(m, routes, path, verb, x);
      AllowedMembers(m, routes', path, verb, x);
      if i :| 0 <= i < |routes| && Offers(m, routes[i], path, verb) && x in routes[i].methods {
        assert Grew(routes[i], routes'[i]);
        assert Offers(m, routes'[i], path, verb) && x in routes'[i].methods;
      }
    }
    forall x | x in b ensures x in a + {"HEAD"} && a != {} {
      AllowedMembers(m, routes', path, verb, x);
      var i :| 0 <= i < |routes| && Offers(m, routes'[i], path, verb) && x in routes'[i].methods;
      assert Grew(routes[i], routes'[i]);
      var y := if x in routes[i].methods then x else "GET";
      AllowedMembers(m, routes, path, verb, y);
      assert Offers(m, routes[i], path, verb) && y in routes[i].methods;
    }
  }

  /** The same answer, except that Allow may list HEAD in addition. */
  predicate SameAnswer(a: Outcome, b: Outcome) {
    if a.NotAllowed? then b.NotAllowed? && a.allow <= b.allow <= a.allow + {"HEAD"} else a == b
  }

  /** After any history of lookups, every request other than HEAD is answered as on the fresh table. */
  lemma HistoryIndependence(m: Matcher, t: Tables, history: seq<Request>, path: string, verb: string)
    requires Upper(verb) != "HEAD"
    ensures SameAnswer(Lookup(m, t, path, verb).1, Lookup(m, After(m, t, history), path, verb).1)
  {
    var t' := After(m, t, history);
    HistoryGrows(m, t, history);
    GetIsUpper();
    SameExact(m, t.routes, t'.routes, Normalize(path), Upper(verb), 0);
    SameAllowed(m, t.routes, t'.routes, Normalize(path), Upper(verb));
  }

  /** HEAD is different. The first route matching the path that gained HEAD from earlier lookups. */
  function FirstGrown(m: Matcher, routes: seq<Route>, routes': seq<Route>, path: string, i: nat): Option<nat>
    requires |routes| == |routes'| && i <= |routes|
    decreases |routes| - i
  {
    if i == |routes| then None
    else if routes'[i] != routes[i] && m(routes[i].path, path) then Some(i)
    else FirstGrown(m, routes, routes', path, i + 1)
  }

  /** No such route; or it comes after the route that serves HEAD anyway; or, if no route does, it
      is the very route that serves GET. */
  predicate HeadUndisturbed(m: Matcher, routes: seq<Route>, routes': seq<Route>, path: string)
    requires |routes| == |routes'|
  {
    var grown := FirstGrown(m, routes, routes', path, 0);
    var head := Exact(m, routes, path, "HEAD", 0);
    grown.None? || (if head.Some? then head.value < grown.value else Exact(m, routes, path, "GET", 0) == grown)
  }

  lemma {:induction false} HeadExact(m: Matcher, routes: seq<Route>, routes': seq<Route>, path: string, i: nat)
    requires AllGrew(routes, routes') && i <= |routes|
    ensures var grown := FirstGrown(m, routes, routes', path, i);
            var head := Exact(m, routes, path, "HEAD", i);
            Exact(m, routes', path, "HEAD", i) ==
            if grown.None? then head
            else if head.None? then grown
            else Some(if head.value < grown.value then head.value else grown.value)
    ensures var grown := FirstGrown(m, routes, routes', path, i);
            grown.Some? ==> i <= grown.value < |routes| && Grew(routes[grown.value], routes'[grown.value])
                            && !Serves(m, routes[grown.value], path, "HEAD")
    decreases |routes| - i
  {
    if i < |routes| {
      assert Grew(routes[i], routes'[i]);
      if routes'[i] != routes[i] {
        assert "HEAD" in routes'[i].methods && "HEAD" !in routes[i].methods;
      }
      ExactIsFirst(m, routes, path, "HEAD", i + 1);
      HeadExact(m, routes, routes', path, i + 1);
    }
  }

  /** After any history, HEAD is answered as on the fresh table exactly if it is undisturbed. */
  lemma HeadAfterHistory(m: Matcher, t: Tables, history: seq<Request>, path0: string)
    ensures var t' := After(m, t, history);
            && |t'.routes| == |t.routes|
            && (SameAnswer(Lookup(m, t, path0, "HEAD").1, Lookup(m, t', path0, "HEAD").1) <==>
                HeadUndisturbed(m, t.routes, t'.routes, Normalize(path0)))
  {
    var t' := After(m, t, history);
    var path := Normalize(path0);
    HistoryGrows(m, t, history);
    GetIsUpper();
    HeadExact(m, t.routes, t'.routes, path, 0);
    HistoryIndependence(m, t, history, path, "GET");
    NormalizeTwice(path0);
    ExactIsFirst(m, t.routes, path, "HEAD", 0);
    ExactIsFirst(m, t.routes, path, "GET", 0);
  }

  /** It can be disturbed: an earlier HEAD request for another path can make a later HEAD request
      choose a route that it would not choose on the fresh table. */
  lemma HeadDependsOnHistory()
    ensures var m: Matcher := (pattern, path) => pattern == "/{any}" || path == "/a";
            var t := Tables([Route(true, "/a", {"GET"}, "p"), Route(true, "/{any}", {"GET"}, "q")], {}, {}, {});
            && Lookup(m, t, "/a", "HEAD").1 == Found(0)
            && Lookup(m, After(m, t, [Request("/b", "HEAD")]), "/a", "HEAD").1 == Found(1)
  {
    var m: Matcher := (pattern, path) => pattern == "/{any}" || path == "/a";
    var a, any := Route(true, "/a", {"GET"}, "p"), Route(true, "/{any}", {"GET"}, "q");
    var t := Tables([a, any], {}, {}, {});
    GetIsUpper();
    assert Normalize("/a") == "/a" && Normalize("/b") == "/b";
    ExactIsFirst(m, t.routes, "/a", "HEAD", 0);
    ExactIsFirst(m, t.routes, "/a", "GET", 0);
    ExactIsFirst(m, t.routes, "/b", "HEAD", 0);
    ExactIsFirst(m, t.routes, "/b", "GET", 0);
    assert Serves(m, t.routes[0], "/a", "GET");
    assert Serves(m, t.routes[1], "/b", "GET") && !Serves(m, t.routes[0], "/b", "GET");
    var t' := Lookup(m, t, "/b", "HEAD").0;
    var one := [Request("/b", "HEAD")];
    assert one[..0] == [];
    assert After(m, t, one) == t';
    assert t'.routes == [a, any.(methods := {"GET"} + {"HEAD"})];
    ExactIsFirst(m, t'.routes, "/a", "HEAD", 0);
    assert Serves(m, t'.routes[1], "/a", "HEAD") && !Serves(m, t'.routes[0], "/a", "HEAD");
  }
}
