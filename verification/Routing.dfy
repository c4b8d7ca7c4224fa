/** The order of the routing table and what a scan of it chooses (frontik/routing.py). */
module Routing {
  import opened Common

  /** api: an APIRoute, otherwise a mount. moduleName: where its endpoint is defined. */
  datatype Route = Route(api: bool, path: string, methods: set<string>, moduleName: string)

  /******* Sort keys *******/

  /** path.split('/'). */
  function Split(path: string): (pieces: seq<string>)
    ensures |pieces| > 0
  {
    if path == "" then [""]
    else
      var rest := Split(path[1..]);
      if path[0] == '/' then [""] + rest else [[path[0]] + rest[0]] + rest[1..]
  }

  /** "/".join(pieces). */
  function Join(pieces: seq<string>): string
    requires |pieces| > 0
  {
    if |pieces| == 1 then pieces[0] else pieces[0] + "/" + Join(pieces[1..])
  }

  predicate NoSlash(pieces: seq<string>) {
    forall i | 0 <= i < |pieces| :: '/' !in pieces[i]
  }

  lemma JoinMore(piece: string, rest: seq<string>)
    ensures |rest| > 0 ==> Join([piece] + rest) == piece + "/" + Join(rest)
  {
    assert ([piece] + rest)[1..] == rest;
  }

  lemma Glue(c: char, piece: string, tail: string)
    ensures [c] + piece + "/" + tail == [c] + (piece + "/" + tail)
  {
  }

  lemma JoinGrows(c: char, pieces: seq<string>)
    requires |pieces| > 0
    ensures Join([[c] + pieces[0]] + pieces[1..]) == [c] + Join(pieces)
  {
    var rest := pieces[1..];
    if rest == [] {
      assert [[c] + pieces[0]] + rest == [[c] + pieces[0]];
    } else {
      JoinMore([c] + pieces[0], rest);
      Glue(c, pieces[0], Join(rest));
    }
  }

  /** Joining the pieces gives the path back, and no piece has a slash. */
  lemma {:induction false} SplitJoins(path: string)
    ensures Join(Split(path)) == path && NoSlash(Split(path))
  {
    if path != "" {
      var rest := Split(path[1..]);
      SplitJoins(path[1..]);
      assert path == [path[0]] + path[1..];
      if path[0] == '/' {
        JoinMore("", rest);
      } else {
        JoinGrows(path[0], rest);
      }
    }
  }

  lemma SplitMore(c: char, tail: string)
    ensures Split([c] + tail) ==
            if c == '/' then [""] + Split(tail) else [[c] + Split(tail)[0]] + Split(tail)[1..]
  {
    assert ([c] + tail)[1..] == tail;
  }

  lemma {:induction false} SplitPiece(piece: string, tail: string)
    requires '/' !in piece
    ensures Split(piece + tail) == [piece + Split(tail)[0]] + Split(tail)[1..]
  {
    if piece == "" {
      assert piece + tail == tail && "" + Split(tail)[0] == Split(tail)[0];
    } else {
      SplitPiece(piece[1..], tail);
      SplitMore(piece[0], piece[1..] + tail);
      assert piece + tail == [piece[0]] + (piece[1..] + tail);
      assert [piece[0]] + (piece[1..] + Split(tail)[0]) == piece + Split(tail)[0];
    }
  }

  /** And these are the only such pieces: splitting undoes joining. */
  lemma {:induction false} JoinSplits(pieces: seq<string>)
    requires |pieces| > 0 && NoSlash(pieces)
    ensures Split(Join(pieces)) == pieces
  {
    if |pieces| == 1 {
      SplitPiece(pieces[0], "");
      assert pieces[0] + "" == pieces[0];
    } else {
      var tail := Join(pieces[1..]);
      JoinSplits(pieces[1..]);
      SplitMore('/', tail);
      SplitPiece(pieces[0], ['/'] + tail);
      assert pieces[0] + "/" + tail == pieces[0] + (['/'] + tail);
      assert pieces[0] + "" == pieces[0];
    }
  }

  function NonEmpty(pieces: seq<string>): seq<string> {
    if pieces == [] then [] else (if pieces[0] != "" then [pieces[0]] else []) + NonEmpty(pieces[1..])
  }

  lemma NonEmptyMore(piece: string, rest: seq<string>)
    ensures NonEmpty([piece] + rest) == (if piece != "" then [piece] else []) + NonEmpty(rest)
  {
    assert ([piece] + rest)[1..] == rest;
  }

  /** [s for s in path.split('/') if s]. */
  function Segments(path: string): seq<string> {
    NonEmpty(Split(path))
  }

  predicate IsParam(segment: string) {
    '{' in segment
  }

  function Flags(segments: seq<string>): (flags: seq<bool>)
    ensures |flags| == |segments|
    ensures forall i | 0 <= i < |segments| :: flags[i] == IsParam(segments[i])
  {
    seq(|segments|, i requires 0 <= i < |segments| => IsParam(segments[i]))
  }

  predicate AnyParam(segments: seq<string>) {
    exists i | 0 <= i < |segments| :: IsParam(segments[i])
  }

  predicate HasParams(r: Route) {
    AnyParam(Segments(r.path))
  }

  lemma AnyParamMore(segment: string, rest: seq<string>)
    ensures AnyParam([segment] + rest) <==> IsParam(segment) || AnyParam(rest)
  {
    var all := [segment] + rest;
    assert all[0] == segment && forall i | 0 <= i < |rest| :: all[i + 1] == rest[i];
  }

  lemma {:induction false} EmptyHaveNone(pieces: seq<string>)
    ensures AnyParam(NonEmpty(pieces)) <==> AnyParam(pieces)
  {
    if pieces != [] {
      var rest := pieces[1..];
      EmptyHaveNone(rest);
      assert pieces == [pieces[0]] + rest;
      AnyParamMore(pieces[0], rest);
      AnyParamMore(pieces[0], NonEmpty(rest));
      assert [] + NonEmpty(rest) == NonEmpty(rest);
    }
  }

  lemma {:induction false} BraceInPiece(path: string)
    ensures '{' in path <==> AnyParam(Split(path))
  {
    if path == "" {
      assert !AnyParam([""]);
    } else {
      var c, rest := path[0], Split(path[1..]);
      BraceInPiece(path[1..]);
      assert path == [c] + path[1..];
      assert rest == [rest[0]] + rest[1..];
      AnyParamMore("", rest);
      AnyParamMore(rest[0], rest[1..]);
      AnyParamMore([c] + rest[0], rest[1..]);
    }
  }

  /** A route has parameters exactly if its path has an opening brace. */
  lemma ParametersAreBraces(r: Route)
    ensures HasParams(r) <==> '{' in r.path
  {
    BraceInPiece(r.path);
    EmptyHaveNone(Split(r.path));
  }

  datatype SortKey = SortKey(rank: int, minusLength: int, flags: seq<bool>)

  function KeyOf(r: Route): SortKey {
    if !r.api then SortKey(3, 0, [])
    else if !HasParams(r) then SortKey(1, -|Segments(r.path)|, [])
    else SortKey(2, -|Segments(r.path)|, Flags(Segments(r.path)))
  }

  /** Tuple comparison, with False before True. */
  predicate FlagsLess(a: seq<bool>, b: seq<bool>) {
    if a == [] then b != []
    else b != [] && (if a[0] != b[0] then b[0] else FlagsLess(a[1..], b[1..]))
  }

  predicate KeyLess(a: SortKey, b: SortKey) {
    || a.rank < b.rank
    || (a.rank == b.rank && a.minusLength < b.minusLength)
    || (a.rank == b.rank && a.minusLength == b.minusLength && FlagsLess(a.flags, b.flags))
  }

  predicate Before(a: Route, b: Route) {
    KeyLess(KeyOf(a), KeyOf(b))
  }

  lemma {:induction false} FlagsOrdered(a: seq<bool>, b: seq<bool>, c: seq<bool>)
    ensures !FlagsLess(a, a)
    ensures FlagsLess(a, b) || FlagsLess(b, a) || a == b
    ensures FlagsLess(a, b) && FlagsLess(b, c) ==> FlagsLess(a, c)
  {
    if a != [] && b != [] {
      assert a == [a[0]] + a[1..] && b == [b[0]] + b[1..];
      FlagsOrdered(a[1..], b[1..], if c == [] then [] else c[1..]);
    } else if a != [] {
      FlagsOrdered(a[1..], [], []);
    }
  }

  /** KeyLess is a strict total order. */
  lemma KeysOrdered(a: SortKey, b: SortKey, c: SortKey)
    ensures !KeyLess(a, a)
    ensures KeyLess(a, b) || KeyLess(b, a) || a == b
    ensures KeyLess(a, b) && KeyLess(b, c) ==> KeyLess(a, c)
  {
    FlagsOrdered(a.flags, b.flags, c.flags);
  }

  /******* What the order means *******/

  predicate Literal(r: Route) {
    r.api && !HasParams(r)
  }

  predicate Parametric(r: Route) {
    r.api && HasParams(r)
  }

  /** At the first segment whose kind differs, a has a literal where b has a parameter. */
  predicate LiteralFirst(a: Route, b: Route) {
    LiteralFirstIn(Segments(a.path), Segments(b.path))
  }

  predicate LiteralFirstIn(s: seq<string>, t: seq<string>) {
    exists i | 0 <= i < |s| && i < |t| ::
      && !IsParam(s[i]) && IsParam(t[i])
      && forall j | 0 <= j < i :: IsParam(s[j]) == IsParam(t[j])
  }

  predicate MoreSpecific(a: Route, b: Route) {
    var m, n := |Segments(a.path)|, |Segments(b.path)|;
    || (a.api && !b.api)
    || (Literal(a) && Parametric(b))
    || (Literal(a) && Literal(b) && m > n)
    || (Parametric(a) && Parametric(b) && (m > n || (m == n && LiteralFirst(a, b))))
  }

  lemma {:induction false} FlagsLessMeans(a: seq<bool>, b: seq<bool>)
    requires |a| == |b|
    ensures FlagsLess(a, b) <==> exists i | 0 <= i < |a| :: !a[i] && b[i] && forall j | 0 <= j < i :: a[j] == b[j]
  {
    if a != [] {
      FlagsLessMeans(a[1..], b[1..]);
      if FlagsLess(a, b) {
        if a[0] == b[0] {
          var i :| 0 <= i < |a| - 1 && !a[1..][i] && b[1..][i] && forall j | 0 <= j < i :: a[1..][j] == b[1..][j];
          assert !a[i + 1] && b[i + 1];
          forall j | 0 <= j < i + 1 ensures a[j] == b[j] {
            assert j > 0 ==> a[1..][j - 1] == a[j] && b[1..][j - 1] == b[j];
          }
        } else {
          assert !a[0] && b[0];
        }
      }
      if i :| 0 <= i < |a| && !a[i] && b[i] && forall j | 0 <= j < i :: a[j] == b[j] {
        if i > 0 {
          assert !a[1..][i - 1] && b[1..][i - 1];
        }
      }
    }
  }

  lemma LiteralFirstIsFlagsLess(s: seq<string>, t: seq<string>)
    requires |s| == |t|
    ensures LiteralFirstIn(s, t) <==> FlagsLess(Flags(s), Flags(t))
  {
    var f, g := Flags(s), Flags(t);
    FlagsLessMeans(f, g);
    if FlagsLess(f, g) {
      var i :| 0 <= i < |f| && !f[i] && g[i] && forall j | 0 <= j < i :: f[j] == g[j];
      assert !IsParam(s[i]) && IsParam(t[i]) && forall j | 0 <= j < i :: IsParam(s[j]) == IsParam(t[j]);
    }
    if i :| 0 <= i < |s| && !IsParam(s[i]) && IsParam(t[i]) && forall j | 0 <= j < i :: IsParam(s[j]) == IsParam(t[j]) {
      assert !f[i] && g[i] && forall j | 0 <= j < i :: f[j] == g[j];
    }
  }

  /** The numeric sort key says exactly: literal routes, then parametric ones, then mounts; longer
      before shorter; a literal before a parameter at the first place they differ. */
  lemma SortKeyMeansMoreSpecific(a: Route, b: Route)
    ensures Before(a, b) <==> MoreSpecific(a, b)
  {
    if |Segments(a.path)| == |Segments(b.path)| {
      LiteralFirstIsFlagsLess(Segments(a.path), Segments(b.path));
    }
  }

  /******* list.sort(key=get_route_sort_key) *******/

  /** x goes after everything that does not come strictly later. */
  function Insert(t: seq<Route>, x: Route): seq<Route> {
    if t == [] || !Before(x, t[|t| - 1]) then t + [x]
    else Insert(t[..|t| - 1], x) + [t[|t| - 1]]
  }

  function StableSort(s: seq<Route>): seq<Route> {
    if s == [] then [] else Insert(StableSort(s[..|s| - 1]), s[|s| - 1])
  }

  predicate Sorted(t: seq<Route>) {
    forall i, j | 0 <= i < j < |t| :: !Before(t[j], t[i])
  }

  /** The routes with one key, in their order. */
  function OfKey(s: seq<Route>, k: SortKey): seq<Route> {
    if s == [] then []
    else OfKey(s[..|s| - 1], k) + (if KeyOf(s[|s| - 1]) == k then [s[|s| - 1]] else [])
  }

  lemma {:induction false} InsertAdds(t: seq<Route>, x: Route)
    ensures multiset(Insert(t, x)) == multiset(t) + multiset{x}
  {
    if t != [] {
      InsertAdds(t[..|t| - 1], x);
      MultisetLast(t);
    }
  }

  lemma {:induction false} InsertMembers(t: seq<Route>, x: Route)
    ensures forall r | r in Insert(t, x) :: r in t || r == x
  {
    if t != [] { InsertMembers(t[..|t| - 1], x); }
  }

  lemma NotBeforeLast(t: seq<Route>, x: Route, i: nat)
    requires Sorted(t) && i < |t| && !Before(x, t[|t| - 1])
    ensures !Before(x, t[i])
  {
    var last := t[|t| - 1];
    KeysOrdered(KeyOf(x), KeyOf(t[i]), KeyOf(last));
    KeysOrdered(KeyOf(t[i]), KeyOf(last), KeyOf(last));
  }

  lemma {:induction false} InsertKeepsSorted(t: seq<Route>, x: Route)
    requires Sorted(t)
    ensures Sorted(Insert(t, x))
  {
    if t != [] {
      var n := |t| - 1;
      var last := t[n];
      if Before(x, last) {
        var head := Insert(t[..n], x);
        InsertKeepsSorted(t[..n], x);
        InsertMembers(t[..n], x);
        KeysOrdered(KeyOf(x), KeyOf(last), KeyOf(x));
        forall i | 0 <= i < |head| ensures !Before(last, head[i]) {
          assert head[i] in t[..n] || head[i] == x;
        }
      } else {
        forall i: nat | i < |t| ensures !Before(x, t[i]) {
          NotBeforeLast(t, x, i);
        }
      }
    }
  }

  lemma {:induction false} SortSorts(s: seq<Route>)
    ensures Sorted(StableSort(s))
  {
    if s != [] {
      SortSorts(s[..|s| - 1]);
      InsertKeepsSorted(StableSort(s[..|s| - 1]), s[|s| - 1]);
    }
  }

  lemma {:induction false} SortPermutes(s: seq<Route>)
    ensures multiset(StableSort(s)) == multiset(s)
  {
    if s != [] {
      SortPermutes(s[..|s| - 1]);
      InsertAdds(StableSort(s[..|s| - 1]), s[|s| - 1]);
      MultisetLast(s);
    }
  }

  lemma MultisetLast(s: seq<Route>)
    requires s != []
    ensures multiset(s) == multiset(s[..|s| - 1]) + multiset{s[|s| - 1]}
  {
    assert s == s[..|s| - 1] + [s[|s| - 1]];
  }

  lemma KeysDiffer(a: Route, b: Route)
    requires Before(a, b)
    ensures KeyOf(a) != KeyOf(b)
  {
    KeysOrdered(KeyOf(a), KeyOf(b), KeyOf(a));
  }

  lemma OfKeyLast(s: seq<Route>, x: Route, k: SortKey)
    ensures OfKey(s + [x], k) == OfKey(s, k) + (if KeyOf(x) == k then [x] else [])
  {
    assert (s + [x])[..|s|] == s;
  }

  lemma SwapOne(a: seq<Route>, b: seq<Route>, c: seq<Route>)
    requires b == [] || c == []
    ensures a + b + c == a + c + b
  {
  }

  lemma {:induction false} InsertOfKey(t: seq<Route>, x: Route, k: SortKey)
    ensures OfKey(Insert(t, x), k) == OfKey(t, k) + (if KeyOf(x) == k then [x] else [])
  {
    if t == [] || !Before(x, t[|t| - 1]) {
      OfKeyLast(t, x, k);
    } else {
      var n := |t| - 1;
      InsertOfKey(t[..n], x, k);
      KeysDiffer(x, t[n]);
      OfKeyLast(Insert(t[..n], x), t[n], k);
      SwapOne(OfKey(t[..n], k), if KeyOf(x) == k then [x] else [], if KeyOf(t[n]) == k then [t[n]] else []);
    }
  }

  lemma {:induction false} SortIsStable(s: seq<Route>, k: SortKey)
    ensures OfKey(StableSort(s), k) == OfKey(s, k)
  {
    if s != [] {
      var n := |s| - 1;
      SortIsStable(s[..n], k);
      InsertOfKey(StableSort(s[..n]), s[n], k);
    }
  }

  lemma {:induction false} OfKeyMember(s: seq<Route>, k: SortKey)
    ensures OfKey(s, k) != [] ==> exists i | 0 <= i < |s| :: KeyOf(s[i]) == k
  {
    if s != [] {
      var init := s[..|s| - 1];
      OfKeyMember(init, k);
      if OfKey(init, k) != [] {
        var i :| 0 <= i < |init| && KeyOf(init[i]) == k;
        assert s[i] == init[i];
      }
    }
  }

  lemma KeyIsNotAfterLast(b: seq<Route>, k: SortKey)
    requires Sorted(b) && OfKey(b, k) != []
    ensures b != [] && !KeyLess(KeyOf(b[|b| - 1]), k)
  {
    OfKeyMember(b, k);
    var i :| 0 <= i < |b| && KeyOf(b[i]) == k;
    KeysOrdered(k, k, k);
    assert i < |b| - 1 ==> !Before(b[|b| - 1], b[i]);
  }

  lemma LastKeyIsLargest(a: seq<Route>, b: seq<Route>)
    requires a != [] && Sorted(b)
    requires forall k: SortKey :: OfKey(a, k) == OfKey(b, k)
    ensures b != [] && !Before(b[|b| - 1], a[|a| - 1])
  {
    var k := KeyOf(a[|a| - 1]);
    assert OfKey(a, k) == OfKey(b, k) && OfKey(a, k) != [];
    KeyIsNotAfterLast(b, k);
  }

  /** Sortedness and the order within each key leave no choice: any stable sort gives this table. */
  lemma {:induction false} StableSortIsUnique(a: seq<Route>, b: seq<Route>)
    requires Sorted(a) && Sorted(b)
    requires forall k: SortKey :: OfKey(a, k) == OfKey(b, k)
    ensures a == b
  {
    if a == [] {
      if b != [] { LastKeyIsLargest(b, a); }
    } else {
      LastKeyIsLargest(a, b);
      LastKeyIsLargest(b, a);
      var m, n := |a| - 1, |b| - 1;
      KeysOrdered(KeyOf(a[m]), KeyOf(b[n]), KeyOf(a[m]));
      var k := KeyOf(a[m]);
      assert OfKey(a, k) == OfKey(a[..m], k) + [a[m]];
      assert OfKey(b, k) == OfKey(b[..n], k) + [b[n]];
      assert OfKey(a, k) == OfKey(b, k);
      assert a[m] == OfKey(a, k)[|OfKey(a, k)| - 1] == b[n];
      forall k': SortKey ensures OfKey(a[..m], k') == OfKey(b[..n], k') {
        assert OfKey(a, k') == OfKey(b, k');
        SameInit(OfKey(a[..m], k'), OfKey(b[..n], k'), if KeyOf(a[m]) == k' then [a[m]] else []);
      }
      StableSortIsUnique(a[..m], b[..n]);
      assert a == a[..m] + [a[m]] && b == b[..n] + [b[n]];
    }
  }

  lemma SameInit(a: seq<Route>, b: seq<Route>, c: seq<Route>)
    ensures a + c == b + c ==> a == b
  {
    if a + c == b + c {
      assert |a| == |b|;
      assert a == (a + c)[..|a|] && b == (b + c)[..|b|];
    }
  }

  lemma {:induction false} SortedIsFixed(t: seq<Route>)
    requires Sorted(t)
    ensures StableSort(t) == t
  {
    if t != [] {
      var n := |t| - 1;
      SortedIsFixed(t[..n]);
      assert t == t[..n] + [t[n]];
      if n > 0 {
        assert !Before(t[n], t[n - 1]);
      }
    }
  }

  lemma SortLast(s: seq<Route>, x: Route)
    ensures StableSort(s + [x]) == Insert(StableSort(s), x)
  {
    assert (s + [x])[..|s|] == s;
  }

  /** Sorting again after each batch of imports is the same as sorting everything once. */
  lemma {:induction false} ResortAfterAppend(a: seq<Route>, b: seq<Route>)
    ensures StableSort(StableSort(a) + b) == StableSort(a + b)
    decreases |b|
  {
    if b == [] {
      SortSorts(a);
      SortedIsFixed(StableSort(a));
      assert a + b == a;
      assert StableSort(a) + b == StableSort(a);
    } else {
      var init, x := b[..|b| - 1], b[|b| - 1];
      ResortAfterAppend(a, init);
      SortLast(a + init, x);
      SortLast(StableSort(a) + init, x);
      ConcatLast(a, b);
      ConcatLast(StableSort(a), b);
    }
  }

  lemma ConcatLast(a: seq<Route>, b: seq<Route>)
    requires b != []
    ensures a + b == a + b[..|b| - 1] + [b[|b| - 1]]
  {
  }

  /******* The scan *******/

  type Test = Route -> bool

  function First(t: seq<Route>, p: Test): Option<Route> {
    if t == [] then None else if p(t[0]) then Some(t[0]) else First(t[1..], p)
  }

  /** The route at i passes, beats every passing route strictly or by having come earlier. */
  ghost predicate IsChoice(s: seq<Route>, i: nat, p: Test) {
    && i < |s| && p(s[i])
    && forall j | 0 <= j < |s| && p(s[j]) && j != i ::
         MoreSpecific(s[i], s[j]) || (!MoreSpecific(s[j], s[i]) && i < j)
  }

  lemma {:induction false} FirstOfConcat(a: seq<Route>, b: seq<Route>, p: Test)
    ensures First(a + b, p) == if First(a, p).Some? then First(a, p) else First(b, p)
  {
    if a == [] {
      assert a + b == b;
    } else {
      FirstOfConcat(a[1..], b, p);
      assert (a + b)[1..] == a[1..] + b;
    }
  }

  lemma {:induction false} FirstIsMember(t: seq<Route>, p: Test)
    ensures First(t, p).Some? ==> First(t, p).value in t && p(First(t, p).value)
    ensures First(t, p).None? ==> forall r | r in t :: !p(r)
  {
    if t != [] { FirstIsMember(t[1..], p); }
  }

  /** Inserting x changes the scan's result only to x, and only if x passes and comes before it. */
  lemma {:induction false} FirstAfterInsert(t: seq<Route>, x: Route, p: Test)
    requires Sorted(t)
    ensures var f := First(t, p);
            First(Insert(t, x), p) == if p(x) && (f.None? || Before(x, f.value)) then Some(x) else f
  {
    if t != [] {
      var n := |t| - 1;
      var last := t[n];
      assert t == t[..n] + [last];
      FirstOfConcat(t[..n], [last], p);
      FirstIsMember(t, p);
      if Before(x, last) {
        FirstAfterInsert(t[..n], x, p);
        FirstOfConcat(Insert(t[..n], x), [last], p);
      } else {
        FirstOfConcat(t, [x], p);
        if First(t, p).Some? {
          var f := First(t, p).value;
          var i :| 0 <= i < |t| && t[i] == f;
          KeysOrdered(KeyOf(x), KeyOf(f), KeyOf(last));
          KeysOrdered(KeyOf(f), KeyOf(last), KeyOf(last));
        }
      }
    } else {
      assert First([x], p) == if p(x) then Some(x) else First([], p);
    }
  }

  lemma Extends(s: seq<Route>, x: Route, i: nat, p: Test)
    requires IsChoice(s, i, p)
    ensures p(x) && Before(x, s[i]) ==> IsChoice(s + [x], |s|, p)
    ensures !(p(x) && Before(x, s[i])) ==> IsChoice(s + [x], i, p)
  {
    forall a, b ensures Before(a, b) <==> MoreSpecific(a, b) {
      SortKeyMeansMoreSpecific(a, b);
    }
    var t := s + [x];
    if p(x) && Before(x, s[i]) {
      forall j | 0 <= j < |s| && p(t[j]) ensures MoreSpecific(x, t[j]) {
        if j != i {
          KeysOrdered(KeyOf(x), KeyOf(s[i]), KeyOf(s[j]));
          KeysOrdered(KeyOf(s[i]), KeyOf(s[j]), KeyOf(s[j]));
        }
      }
    }
  }

  /** Scanning the sorted table finds the declarative choice among the routes as registered, and
      nothing only if no route passes. */
  lemma {:induction false} ScanFindsChoice(s: seq<Route>, p: Test)
    ensures match First(StableSort(s), p)
            case None => forall i | 0 <= i < |s| :: !p(s[i])
            case Some(r) => exists i: nat :: IsChoice(s, i, p) && s[i] == r
  {
    if s != [] {
      var n := |s| - 1;
      var init, x := s[..n], s[n];
      assert s == init + [x];
      ScanFindsChoice(init, p);
      SortSorts(init);
      FirstAfterInsert(StableSort(init), x, p);
      match First(StableSort(init), p)
      case None =>
        if p(x) {
          assert forall j | 0 <= j < n :: s[j] == init[j];
          assert IsChoice(s, n, p);
        }
      case Some(r) =>
        var i: nat :| IsChoice(init, i, p) && init[i] == r;
        Extends(init, x, i, p);
        assert s[i] == init[i];
        if p(x) && Before(x, r) {
          assert IsChoice(s, n, p) && s[n] == x;
        } else {
          assert IsChoice(s, i, p);
        }
    }
  }

  /** There is at most one choice, so the scan finds the choice. */
  lemma ChoiceIsUnique(s: seq<Route>, i: nat, j: nat, p: Test)
    requires IsChoice(s, i, p) && IsChoice(s, j, p)
    ensures i == j
  {
    SortKeyMeansMoreSpecific(s[i], s[j]);
    SortKeyMeansMoreSpecific(s[j], s[i]);
    KeysOrdered(KeyOf(s[i]), KeyOf(s[j]), KeyOf(s[i]));
    KeysOrdered(KeyOf(s[j]), KeyOf(s[i]), KeyOf(s[j]));
  }
}
