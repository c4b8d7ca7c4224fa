/** Log-level overrides loaded periodically: loggers and their handlers follow the list, loggers
    that leave the list go back to the configured level
    (frontik/loggers/logleveloverride/logging_configurator_client.py). */
module LogLevels {
  type Name = string
  type Level = int
  datatype Owner = Root | Logger(name: Name)

  /** The identity of a handler object: the one logger that has it, and a serial number. */
  datatype Id = Id(owner: Owner, number: nat)

  datatype Override = Override(name: Name, level: Level)

  /** The override store; the loggers other than the root with their levels and handler lists; the
      root's handlers; the level of every handler object; the next free serial number. */
  datatype Logs = Logs(
    store: map<Name, Level>,
    levels: map<Name, Level>,
    handlers: map<Name, seq<Id>>,
    root: seq<Id>,
    heap: map<Id, Level>,
    next: nat)

  function HandlersOf(l: Logs, name: Name): seq<Id> {
    if name in l.handlers then l.handlers[name] else []
  }

  /** handler.setLevel on each of hs. */
  function SetLevels(heap: map<Id, Level>, hs: seq<Id>, level: Level): map<Id, Level> {
    map h | h in heap :: if h in hs then level else heap[h]
  }

  function NewIds(name: Name, next: nat, n: nat): (ids: seq<Id>)
    ensures |ids| == n && forall h | h in ids :: h.owner == Logger(name) && next <= h.number < next + n
  {
    if n == 0 then [] else NewIds(name, next, n - 1) + [Id(Logger(name), next + n - 1)]
  }

  /** n copies at the level for one logger, with new serial numbers. */
  function AddCopies(heap: map<Id, Level>, name: Name, next: nat, n: nat, level: Level): map<Id, Level> {
    if n == 0 then heap else AddCopies(heap, name, next, n - 1, level)[Id(Logger(name), next + n - 1) := level]
  }

  function Apply(l: Logs, o: Override): Logs {
    if o.name in l.store && l.store[o.name] == o.level then l
    else
      var marked := l.(store := l.store[o.name := o.level], levels := l.levels[o.name := o.level]);
      if HandlersOf(l, o.name) != [] then marked.(heap := SetLevels(l.heap, HandlersOf(l, o.name), o.level))
      else
        marked.(handlers := l.handlers[o.name := NewIds(o.name, l.next, |l.root|)],
              heap := AddCopies(l.heap, o.name, l.next, |l.root|, o.level),
              next := l.next + |l.root|)
  }

  function ApplyAll(l: Logs, os: seq<Override>): Logs {
    if os == [] then l else Apply(ApplyAll(l, os[..|os| - 1]), os[|os| - 1])
  }

  function Drop(l: Logs, name: Name, configured: Level): Logs {
    l.(store := l.store - {name}, levels := l.levels[name := configured],
       heap := SetLevels(l.heap, HandlersOf(l, name), configured))
  }

  function DropAll(l: Logs, names: seq<Name>, configured: Level): Logs {
    if names == [] then l else Drop(DropAll(l, names[..|names| - 1], configured), names[|names| - 1], configured)
  }

  function Refresh(l: Logs, dropped: seq<Name>, os: seq<Override>, configured: Level): Logs {
    ApplyAll(DropAll(l, dropped, configured), os)
  }

  /******* The code *******/

  class LoggingConfigurator {
    const configured: Level
    var store: map<Name, Level>
    var levels: map<Name, Level>
    var handlers: map<Name, seq<Id>>
    var root: seq<Id>
    var heap: map<Id, Level>
    var next: nat

    function View(): Logs
      reads this
    {
      Logs(store, levels, handlers, root, heap, next)
    }

    constructor (configured: Level, l: Logs)
      ensures this.configured == configured && View() == l
    {
      this.configured := configured;
      store, levels, handlers, root, heap, next := l.store, l.levels, l.handlers, l.root, l.heap, l.next;
    }

    method SetHandlers(hs: seq<Id>, level: Level)
      requires forall h | h in hs :: h in heap
      modifies this`heap
      ensures heap == SetLevels(old(heap), hs, level)
    {
      for i := 0 to |hs|
        invariant heap == SetLevels(old(heap), hs[..i], level)
      {
        assert hs[..i + 1] == hs[..i] + [hs[i]];
        heap := heap[hs[i] := level];
      }
      assert hs[..|hs|] == hs;
    }

    /** addHandler(copy) for one root handler. */
    method AddCopy(name: Name, level: Level)
      requires name in handlers
      modifies this`handlers, this`heap, this`next
      ensures handlers == old(handlers)[name := old(handlers[name]) + [Id(Logger(name), old(next))]]
      ensures heap == old(heap)[Id(Logger(name), old(next)) := level] && next == old(next) + 1
    {
      var copy := Id(Logger(name), next);
      heap := heap[copy := level];
      handlers := handlers[name := handlers[name] + [copy]];
      next := next + 1;
    }

    /** A copy of every root handler. */
    method CopyRootHandlers(name: Name, level: Level)
      modifies this`handlers, this`heap, this`next
      ensures handlers == old(handlers)[name := NewIds(name, old(next), |root|)]
      ensures heap == AddCopies(old(heap), name, old(next), |root|, level)
      ensures next == old(next) + |root|
    {
      handlers := handlers[name := []];
      for i := 0 to |root|
        invariant handlers == old(handlers)[name := NewIds(name, old(next), i)]
        invariant heap == AddCopies(old(heap), name, old(next), i, level)
        invariant next == old(next) + i
      {
        AddCopy(name, level);
      }
    }

    method ApplyOverride(o: Override)
      requires forall h | h in HandlersOf(View(), o.name) :: h in heap
      modifies this
      ensures View() == Apply(old(View()), o)
    {
      if o.name in store && store[o.name] == o.level {
        return;
      }
      levels := levels[o.name := o.level];
      if o.name in handlers && handlers[o.name] != [] {
        SetHandlers(handlers[o.name], o.level);
      } else {
        CopyRootHandlers(o.name, o.level);
      }
      store := store[o.name := o.level];
    }

    method ResetLogLevel(name: Name)
      requires forall h | h in HandlersOf(View(), name) :: h in heap
      modifies this
      ensures View() == Drop(old(View()), name, configured)
    {
      store := store - {name};
      levels := levels[name := configured];
      SetHandlers(if name in handlers then handlers[name] else [], configured);
    }

    /** dropped lists the store's names that the new list does not have, in any order. */
    method RollbackOverrides(dropped: seq<Name>)
      requires Valid(View())
      modifies this
      ensures View() == DropAll(old(View()), dropped, configured)
    {
      for i := 0 to |dropped|
        invariant View() == DropAll(old(View()), dropped[..i], configured)
      {
        assert dropped[..i + 1][..i] == dropped[..i];
        DropAllEffect(old(View()), dropped[..i], configured);
        ResetLogLevel(dropped[i]);
      }
      assert dropped[..|dropped|] == dropped;
    }

    method UpdateLogLevel(dropped: seq<Name>, overrides: seq<Override>)
      requires Valid(View())
      requires forall n :: n in dropped <==> n in store && n !in Names(overrides)
      modifies this
      ensures View() == Refresh(old(View()), dropped, overrides, configured)
      ensures Valid(View())
    {
      RollbackOverrides(dropped);
      DropAllEffect(old(View()), dropped, configured);
      ghost var rolled := View();
      for i := 0 to |overrides|
        invariant View() == ApplyAll(rolled, overrides[..i])
      {
        assert overrides[..i + 1][..i] == overrides[..i];
        ApplyAllEffect(rolled, overrides[..i]);
        ApplyOverride(overrides[i]);
      }
      assert overrides[..|overrides|] == overrides;
      ApplyAllEffect(rolled, overrides);
    }
  }

  /******* What a refresh achieves *******/

  /** The logger and all its handlers are at the level. */
  predicate At(l: Logs, name: Name, level: Level) {
    && name in l.levels && l.levels[name] == level
    && forall h | h in HandlersOf(l, name) :: h in l.heap && l.heap[h] == level
  }

  /** Every handler exists and belongs to its logger alone; numbers from next on are free. */
  predicate Unshared(l: Logs) {
    && (forall h | h in l.heap :: h.number < l.next)
    && (forall h | h in l.root :: h in l.heap && h.owner == Root)
    && (forall n | n in l.handlers :: forall h | h in l.handlers[n] :: h in l.heap && h.owner == Logger(n))
  }

  predicate Valid(l: Logs) {
    Unshared(l) && forall n | n in l.store :: At(l, n, l.store[n])
  }

  /** Nothing about the logger or its handlers differs. */
  predicate Same(l: Logs, l': Logs, name: Name) {
    && HandlersOf(l', name) == HandlersOf(l, name)
    && (name in l'.levels <==> name in l.levels)
    && (name in l.levels ==> l'.levels[name] == l.levels[name])
    && (forall h | h in HandlersOf(l, name) && h in l.heap :: h in l'.heap && l'.heap[h] == l.heap[h])
    && (name in l'.store <==> name in l.store)
    && (name in l.store ==> l'.store[name] == l.store[name])
  }

  /** A logger with handlers keeps exactly those; one without gets at most one copy of each of the
      root's. */
  predicate Grown(l: Logs, l': Logs, name: Name) {
    HandlersOf(l', name) == HandlersOf(l, name) ||
    (HandlersOf(l, name) == [] && |HandlersOf(l', name)| == |l.root|)
  }

  predicate RootUntouched(l: Logs, l': Logs) {
    l'.root == l.root && forall h | h in l.root && h in l.heap :: h in l'.heap && l'.heap[h] == l.heap[h]
  }

  lemma DropEffect(l: Logs, name: Name, configured: Level)
    requires Valid(l)
    ensures var l' := Drop(l, name, configured);
            && Valid(l') && At(l', name, configured) && name !in l'.store && RootUntouched(l, l')
            && l'.handlers == l.handlers && l'.heap.Keys == l.heap.Keys
            && forall n | n != name :: Same(l, l', n)
  {
  }

  lemma {:induction false} AddCopiesEffect(heap: map<Id, Level>, name: Name, next: nat, n: nat, level: Level)
    requires forall h | h in heap :: h.number < next
    ensures var heap' := AddCopies(heap, name, next, n, level);
            && (forall h | h in heap' :: h.number < next + n)
            && (forall h | h in NewIds(name, next, n) :: h in heap' && heap'[h] == level)
            && (forall h | h in heap :: h in heap' && heap'[h] == heap[h])
  {
    if n > 0 { AddCopiesEffect(heap, name, next, n - 1, level); }
  }

  ghost predicate Applied(l: Logs, l': Logs, o: Override) {
    && Valid(l') && At(l', o.name, o.level) && RootUntouched(l, l')
    && l'.store == l.store[o.name := o.level]
    && Grown(l, l', o.name)
    && forall n | n != o.name :: Same(l, l', n)
  }

  lemma ApplyEffect(l: Logs, o: Override)
    requires Valid(l)
    ensures Applied(l, Apply(l, o), o)
  {
    if o.name in l.store && l.store[o.name] == o.level {
    } else if HandlersOf(l, o.name) != [] {
      SetEffect(l, o);
    } else {
      CopyEffect(l, o);
    }
  }

  lemma SetEffect(l: Logs, o: Override)
    requires Valid(l) && !(o.name in l.store && l.store[o.name] == o.level) && HandlersOf(l, o.name) != []
    ensures Applied(l, Apply(l, o), o)
  {
    var l' := Apply(l, o);
    forall n | n in l'.store && n != o.name ensures At(l', n, l'.store[n]) {
      assert At(l, n, l.store[n]);
    }
  }

  predicate NeedsCopies(l: Logs, o: Override) {
    !(o.name in l.store && l.store[o.name] == o.level) && HandlersOf(l, o.name) == []
  }

  lemma CopiesStayUnshared(l: Logs, o: Override)
    requires Unshared(l) && NeedsCopies(l, o)
    ensures var l' := Apply(l, o);
            && Unshared(l') && At(l', o.name, o.level) && RootUntouched(l, l')
            && (forall h | h in l.heap :: h in l'.heap && l'.heap[h] == l.heap[h])
  {
    var l' := Apply(l, o);
    AddCopiesEffect(l.heap, o.name, l.next, |l.root|, o.level);
    assert l'.handlers[o.name] == NewIds(o.name, l.next, |l.root|);
    assert forall n | n in l'.handlers && n != o.name :: l'.handlers[n] == l.handlers[n];
  }

  lemma CopyEffect(l: Logs, o: Override)
    requires Valid(l) && NeedsCopies(l, o)
    ensures Applied(l, Apply(l, o), o)
  {
    var l' := Apply(l, o);
    CopiesStayUnshared(l, o);
    forall n | n != o.name ensures Same(l, l', n) {
      assert HandlersOf(l', n) == HandlersOf(l, n);
    }
    forall n | n in l'.store && n != o.name ensures At(l', n, l'.store[n]) {
      assert At(l, n, l.store[n]);
      SameKeepsAt(l, l', n, l.store[n]);
    }
  }

  lemma {:induction false} DropAllEffect(l: Logs, names: seq<Name>, configured: Level)
    requires Valid(l)
    ensures var l' := DropAll(l, names, configured);
            && Valid(l') && RootUntouched(l, l') && l'.handlers == l.handlers && l'.heap.Keys == l.heap.Keys
            && (forall n | n in names :: At(l', n, configured) && n !in l'.store)
            && (forall n | n !in names :: Same(l, l', n))
  {
    if names != [] {
      var init, last := names[..|names| - 1], names[|names| - 1];
      var mid := DropAll(l, init, configured);
      DropAllEffect(l, init, configured);
      DropEffect(mid, last, configured);
      assert names == init + [last];
      forall n | n in init && n != last ensures At(Drop(mid, last, configured), n, configured) {
        SameKeepsAt(mid, Drop(mid, last, configured), n, configured);
      }
    }
  }

  lemma SameKeepsAt(l: Logs, l': Logs, n: Name, level: Level)
    requires Same(l, l', n) && At(l, n, level)
    ensures At(l', n, level)
  {
  }

  function Names(os: seq<Override>): set<Name> {
    set o | o in os :: o.name
  }

  /** The last level listed for a name. */
  function LastLevel(os: seq<Override>, name: Name): Level
    requires name in Names(os)
  {
    var last := os[|os| - 1];
    if last.name == name then last.level
    else
      assert os == os[..|os| - 1] + [last];
      LastLevel(os[..|os| - 1], name)
  }

  /** The whole effect of the list on a valid state. */
  ghost predicate Listed(l: Logs, l': Logs, os: seq<Override>) {
    && (forall n | n in Names(os) :: At(l', n, LastLevel(os, n)) && n in l'.store && l'.store[n] == LastLevel(os, n))
    && (forall n | n in Names(os) :: Grown(l, l', n))
    && (forall n | n !in Names(os) :: Same(l, l', n))
  }

  lemma {:induction false} ApplyAllEffect(l: Logs, os: seq<Override>)
    requires Valid(l)
    ensures var l' := ApplyAll(l, os);
            Valid(l') && RootUntouched(l, l') && Listed(l, l', os)
  {
    if os != [] {
      var init, o := os[..|os| - 1], os[|os| - 1];
      var mid := ApplyAll(l, init);
      ApplyAllEffect(l, init);
      ApplyEffect(mid, o);
      assert os == init + [o];
      ListedStep(l, mid, Apply(mid, o), init, o);
    }
  }

  lemma NamesStep(init: seq<Override>, o: Override, n: Name)
    ensures n in Names(init + [o]) <==> n in Names(init) || n == o.name
    ensures n == o.name ==> n in Names(init + [o]) && LastLevel(init + [o], n) == o.level
    ensures n != o.name && n in Names(init) ==>
              n in Names(init + [o]) && LastLevel(init + [o], n) == LastLevel(init, n)
  {
    assert (init + [o])[..|init|] == init;
    assert o in init + [o];
    assert forall p | p in init :: p in init + [o];
  }

  lemma ListedStep(l: Logs, mid: Logs, l': Logs, init: seq<Override>, o: Override)
    requires Listed(l, mid, init) && mid.root == l.root
    requires At(l', o.name, o.level) && o.name in l'.store && l'.store[o.name] == o.level && Grown(mid, l', o.name)
    requires forall n | n != o.name :: Same(mid, l', n)
    ensures Listed(l, l', init + [o])
  {
    var os := init + [o];
    forall n | n in Names(os)
      ensures At(l', n, LastLevel(os, n)) && n in l'.store && l'.store[n] == LastLevel(os, n) && Grown(l, l', n)
    {
      NamesStep(init, o, n);
      if n != o.name {
        SameKeepsAt(mid, l', n, LastLevel(init, n));
      } else if n !in Names(init) {
        assert Same(l, mid, n);
      }
    }
    forall n | n !in Names(os) ensures Same(l, l', n) {
      NamesStep(init, o, n);
      assert Same(l, mid, n) && Same(mid, l', n);
    }
  }

  /** One refresh, seen by one logger: a listed one is stored at its last level and it and all its
      handlers are at that level; one that left the list is no longer stored and back at the
      configured level; any other is as it was and not stored. Handlers come at most once. */
  ghost predicate NameEffect(l: Logs, l': Logs, os: seq<Override>, configured: Level, n: Name) {
    && (if n in Names(os) then n in l'.store && l'.store[n] == LastLevel(os, n) && At(l', n, LastLevel(os, n))
        else n !in l'.store && (if n in l.store then At(l', n, configured) else Same(l, l', n)))
    && Grown(l, l', n)
  }

  /** One refresh, whatever happened before it: the store is the list at its last levels, each listed
      logger and all its handlers are at that level, every logger that left the list is back at the
      configured level, handler copies were added at most once, and all other loggers and the root's
      handlers are as they were. Validity carries this from refresh to refresh. */
  lemma RefreshEffect(l: Logs, dropped: seq<Name>, os: seq<Override>, configured: Level)
    requires Valid(l)
    requires forall n :: n in dropped <==> n in l.store && n !in Names(os)
    ensures var l' := Refresh(l, dropped, os, configured);
            Valid(l') && RootUntouched(l, l') && forall n :: NameEffect(l, l', os, configured, n)
  {
    var mid := DropAll(l, dropped, configured);
    var l' := ApplyAll(mid, os);
    DropAllEffect(l, dropped, configured);
    ApplyAllEffect(mid, os);
    forall n ensures NameEffect(l, l', os, configured, n) {
      EffectOn(l, mid, l', dropped, os, configured, n);
    }
  }

  lemma EffectOn(l: Logs, mid: Logs, l': Logs, dropped: seq<Name>, os: seq<Override>, configured: Level, n: Name)
    requires n in dropped <==> n in l.store && n !in Names(os)
    requires mid.root == l.root && mid.handlers == l.handlers && Listed(mid, l', os)
    requires if n in dropped then At(mid, n, configured) && n !in mid.store else Same(l, mid, n)
    ensures NameEffect(l, l', os, configured, n)
  {
    assert HandlersOf(mid, n) == HandlersOf(l, n);
    if n !in Names(os) {
      assert Same(mid, l', n);
      if n in dropped {
        SameKeepsAt(mid, l', n, configured);
      }
    }
  }

  /******* Who gets handlers *******/

  /** The list gives the logger some level other than the one it is stored at. */
  predicate Moves(store: map<Name, Level>, os: seq<Override>, n: Name) {
    exists o | o in os :: o.name == n && !(n in store && store[n] == o.level)
  }

  /** One new handler for each of the root's. */
  predicate Copied(l: Logs, l': Logs, n: Name) {
    var hs := HandlersOf(l', n);
    && |hs| == |l.root|
    && (forall i, j | 0 <= i < j < |hs| :: hs[i] != hs[j])
    && (forall h | h in hs :: h !in l.heap && h in l'.heap)
  }

  lemma {:induction false} NewIdAt(name: Name, next: nat, n: nat, i: nat)
    requires i < n
    ensures NewIds(name, next, n)[i] == Id(Logger(name), next + i)
  {
    if i < n - 1 {
      NewIdAt(name, next, n - 1, i);
    }
  }

  /** What a list makes of the handlers of a logger that had none. */
  ghost predicate Supplied(l: Logs, l': Logs, os: seq<Override>, n: Name) {
    && l'.root == l.root && l.next <= l'.next
    && (if Moves(l.store, os, n) then Copied(l, l', n)
        else HandlersOf(l', n) == [] && (n in l'.store <==> n in l.store)
             && (n in l.store ==> l'.store[n] == l.store[n]))
  }

  lemma ApplySupplies(l: Logs, mid: Logs, o: Override)
    requires Unshared(l) && Valid(mid) && mid.root == l.root && l.next <= mid.next
    requires HandlersOf(mid, o.name) == [] && !(o.name in mid.store && mid.store[o.name] == o.level)
    ensures Copied(l, Apply(mid, o), o.name)
  {
    var l' := Apply(mid, o);
    var ids := NewIds(o.name, mid.next, |mid.root|);
    forall i, j | 0 <= i < j < |ids| ensures ids[i] != ids[j] {
      NewIdAt(o.name, mid.next, |mid.root|, i);
      NewIdAt(o.name, mid.next, |mid.root|, j);
    }
    AddCopiesEffect(mid.heap, o.name, mid.next, |mid.root|, o.level);
    assert l'.handlers[o.name] == ids;
  }

  lemma MovesMore(store: map<Name, Level>, init: seq<Override>, o: Override, n: Name)
    ensures Moves(store, init + [o], n) <==>
            Moves(store, init, n) || (o.name == n && !(n in store && store[n] == o.level))
  {
    var os := init + [o];
    assert forall p | p in os :: p in init || p == o;
    assert o in os && forall p | p in init :: p in os;
  }

  lemma StepKeepsCopies(l: Logs, mid: Logs, o: Override, n: Name)
    requires Unshared(l) && Valid(mid) && mid.root == l.root && Copied(l, mid, n)
    requires l.next <= mid.next
    ensures Copied(l, Apply(mid, o), n)
  {
    ApplyEffect(mid, o);
    if o.name == n {
      if HandlersOf(mid, n) == [] && !(n in mid.store && mid.store[n] == o.level) {
        ApplySupplies(l, mid, o);
      }
    } else {
      assert Same(mid, Apply(mid, o), n);
    }
  }

  lemma {:induction false} ListSupplies(l: Logs, os: seq<Override>, n: Name)
    requires Valid(l) && HandlersOf(l, n) == []
    ensures Supplied(l, ApplyAll(l, os), os, n)
  {
    if os != [] {
      var init, o := os[..|os| - 1], os[|os| - 1];
      var mid := ApplyAll(l, init);
      ListSupplies(l, init, n);
      ApplyAllEffect(l, init);
      ApplyEffect(mid, o);
      MovesMore(l.store, init, o, n);
      assert os == init + [o];
      if Moves(l.store, init, n) {
        StepKeepsCopies(l, mid, o, n);
      } else if o.name != n {
        assert Same(mid, Apply(mid, o), n);
      } else if !(n in mid.store && mid.store[n] == o.level) {
        ApplySupplies(l, mid, o);
      }
    }
  }

  /** One refresh, for a listed logger without handlers: it ends with one new handler for each of the
      root's, all at its last level, if and only if the list gives it any level other than the one it
      is stored at; otherwise it still has none. A logger with handlers gets none in addition. */
  lemma NewHandlersExactly(l: Logs, dropped: seq<Name>, os: seq<Override>, configured: Level, n: Name)
    requires Valid(l) && n in Names(os)
    requires forall m :: m in dropped <==> m in l.store && m !in Names(os)
    ensures var l' := Refresh(l, dropped, os, configured);
            && (HandlersOf(l, n) != [] ==> HandlersOf(l', n) == HandlersOf(l, n))
            && (HandlersOf(l, n) == [] && Moves(l.store, os, n) ==>
                  Copied(l, l', n) && forall h | h in HandlersOf(l', n) :: l'.heap[h] == LastLevel(os, n))
            && (HandlersOf(l, n) == [] && !Moves(l.store, os, n) ==> HandlersOf(l', n) == [])
  {
    var mid := DropAll(l, dropped, configured);
    DropAllEffect(l, dropped, configured);
    DropKeepsNext(l, dropped, configured);
    RefreshEffect(l, dropped, os, configured);
    assert Same(l, mid, n) && NameEffect(l, Refresh(l, dropped, os, configured), os, configured, n);
    if HandlersOf(l, n) == [] {
      ListSupplies(mid, os, n);
      assert Moves(mid.store, os, n) <==> Moves(l.store, os, n);
    }
  }

  lemma {:induction false} DropKeepsNext(l: Logs, names: seq<Name>, configured: Level)
    ensures DropAll(l, names, configured).next == l.next
  {
    if names != [] {
      DropKeepsNext(l, names[..|names| - 1], configured);
    }
  }

  /** Over any run of refreshes a logger's handler list changes at most once: from empty to one copy
      of each root handler. */
  lemma {:induction false} CopiesAtMostOnce(
    l: Logs, dropped: seq<seq<Name>>, lists: seq<seq<Override>>, configured: Level)
    requires Valid(l) && |dropped| == |lists|
    requires Consistent(l, dropped, lists, configured)
    ensures var l' := RefreshAll(l, dropped, lists, configured);
            Valid(l') && RootUntouched(l, l') && forall n :: Grown(l, l', n)
    decreases |lists|
  {
    if lists != [] {
      var mid := Refresh(l, dropped[0], lists[0], configured);
      RefreshEffect(l, dropped[0], lists[0], configured);
      CopiesAtMostOnce(mid, dropped[1..], lists[1..], configured);
      var l' := RefreshAll(mid, dropped[1..], lists[1..], configured);
      forall n ensures Grown(l, l', n) {
        assert NameEffect(l, mid, lists[0], configured, n) && Grown(mid, l', n);
      }
    }
  }

  function RefreshAll(l: Logs, dropped: seq<seq<Name>>, lists: seq<seq<Override>>, configured: Level): Logs
    requires |dropped| == |lists|
    decreases |lists|
  {
    if lists == [] then l
    else RefreshAll(Refresh(l, dropped[0], lists[0], configured), dropped[1..], lists[1..], configured)
  }

  ghost predicate Consistent(l: Logs, dropped: seq<seq<Name>>, lists: seq<seq<Override>>, configured: Level)
    requires |dropped| == |lists|
    decreases |lists|
  {
    lists == [] ||
    ((forall n :: n in dropped[0] <==> n in l.store && n !in Names(lists[0])) &&
     Consistent(Refresh(l, dropped[0], lists[0], configured), dropped[1..], lists[1..], configured))
  }
}
