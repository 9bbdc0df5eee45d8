/** Two runs of the queue.  A directory d of the root holds the files x and y; requests read the attributes of files and
    rename x to y, and d itself. */
module QueueScenes {
  import opened Common
  import opened NodeTree
  import opened NodeSteps
  import opened FuseNodes
  import opened QueueSteps
  import opened QueueRuns
  import opened QueueProgress
  import opened QueueDeadlock
  import NodeRuns

  const D: Id := 2
  const X: Id := 3
  const Y: Id := 4

  // The path of a node, as getattr asks for it; an entry of a directory, as rename does.
  function Attr(n: Id): Ask {
    Ask(n, None, false)
  }

  function Entry(dir: Id, nm: string): Ask {
    Ask(dir, Some(nm), true)
  }

  const PLENTY: Luck := Luck(Enough, Enough)

  // ------------------------------------------------------------------ the tree

  ghost predicate Known(s: State, n: Id, dir: Id, nm: string) {
    && Lookup(s, dir, nm) == Some(n) && n in s.parent && s.parent[n] == dir && n in s.lock
    && n in s.nlookup && s.nlookup[n] > 0
  }

  ghost predicate Plot(s: State) {
    TreeInv(s) && Known(s, D, ROOT, "d") && Known(s, X, D, "x") && Known(s, Y, D, "y") && Lookup(s, ROOT, "e").None?
  }

  // The lock words of d, x and y.
  ghost predicate Words(s: State, d: int, x: int, y: int) {
    D in s.lock && X in s.lock && Y in s.lock && s.lock[D] == d && s.lock[X] == x && s.lock[Y] == y
  }

  lemma ChainIs(s: State, n: Id, c: seq<Id>)
    requires TreeInv(s) && n in s.lock && Line(s.parent, n, c)
    ensures ChainOf(s, n) == c
  {
    LineUnique(s.parent, n, ChainOf(s, n), c);
  }

  lemma PlotPlace(s: State, a: Ask)
    requires Plot(s) && (a.dir == ROOT || a.dir == D || a.dir == X || a.dir == Y)
    ensures Placed(s, a) && Rooted(s, a)
    ensures Climbs(s, a) == if a.dir == ROOT then [] else if a.dir == D then [D] else [a.dir, D]
  {
    hide Entries, Acyclic;
    assert Line(s.parent, ROOT, [ROOT]);
    assert [D, ROOT][1..] == [ROOT] && Line(s.parent, D, [D, ROOT]);
    assert [a.dir, D, ROOT][1..] == [D, ROOT];
    var c := if a.dir == ROOT then [ROOT] else if a.dir == D then [D, ROOT] else [a.dir, D, ROOT];
    assert Line(s.parent, a.dir, c);
    hide Line;
    ChainIs(s, a.dir, c);
    assert [ROOT][..0] == [] && [D, ROOT][..1] == [D] && [a.dir, D, ROOT][..2] == [a.dir, D];
  }

  lemma PlotKept(s: State, s': State)
    requires Plot(s) && s' == s.(lock := s'.lock, holds := s'.holds) && s'.lock.Keys == s.lock.Keys
    ensures Plot(s')
  {
    hide Line, Entries, Acyclic;
  }

  lemma PlotKernel(s: State)
    requires Plot(s) && Inv(s)
    ensures KernelAsks(s, Attr(ROOT)) && KernelAsks(s, Attr(X)) && KernelAsks(s, Attr(Y))
    ensures KernelAsks(s, Entry(D, "x")) && KernelAsks(s, Entry(D, "y")) && KernelAsks(s, Entry(ROOT, "d"))
    ensures KernelAsks(s, Entry(ROOT, "e"))
  {
    hide TreeInv, HoldInv, LockInv, Due;
  }

  // ------------------------------------------------------------------ lock words, step by step

  lemma TakenHold(s: State, t: Token, a: Ask)
    requires Placed(s, a) && Clear(s, a) && Rooted(s, a)
    ensures After(s, t, a).holds == s.holds[t := Hold(a.dir, ChainOf(s, a.dir), Target(s, a))]
  {
    hide Line, Acyclic, Blocked, Clear, Rooted;
    TryWords(s, t, a);
  }

  // What a released path does to a word.
  lemma FreedWord(s: State, t: Token, a: Ask, n: Id)
    requires Inv(s) && Placed(s, a) && t in s.holds && s.holds[t].dir == a.dir && n in s.lock
    ensures n in Release(s, t).lock
    ensures Release(s, t).lock[n] == if s.holds[t].wnode == Some(n) then 0
                                     else if n in Climbs(s, a) then Unread(s.lock[n]) else s.lock[n]
  {
    hide TreeInv, RefInv, HoldInv, LockInv, Climbs, Rooted;
    HeldPlace(s, t, a);
  }

  // ------------------------------------------------------------------ systems

  function Tokens(id: nat): set<Token> {
    {Token(id, false), Token(id, true)}
  }

  // Request `id` holds just the path of `n`.
  ghost predicate Holder(x: System, id: nat, n: Id) {
    && Token(id, false) in x.tree.holds && Token(id, true) !in x.tree.holds
    && x.tree.holds[Token(id, false)].dir == n && x.tree.holds[Token(id, false)].wnode == None
  }

  // The requests under way are among `ids`.
  ghost predicate Few(x: System, ids: set<nat>) {
    |x.all| <= 2 * |ids| && forall t :: t in x.all ==> t.request in ids
  }

  lemma FewUnknown(x: System, ids: set<nat>, id: nat)
    requires Few(x, ids) && id !in ids && |ids| < 10
    ensures Unknown(x, id)
  {
  }

  lemma FewMore(x: System, x': System, ids: set<nat>, id: nat)
    requires Few(x, ids) && id !in ids && x'.all == x.all + Tokens(id)
    ensures Few(x', ids + {id})
  {
    assert |x.all + Tokens(id)| <= |x.all| + |Tokens(id)|;
    assert Tokens(id) == {Token(id, false), Token(id, true)};
  }

  lemma FewLess(x: System, x': System, ids: set<nat>, id: nat)
    requires Few(x, ids) && x'.all == x.all - Tokens(id)
    ensures Few(x', ids)
  {
    SubsetSize(x'.all, x.all);
  }

  // Every other holder stays one.
  ghost predicate HoldersKept(x: System, x': System, ids: set<nat>) {
    forall j, m :: j !in ids && Holder(x, j, m) ==> Holder(x', j, m)
  }

  ghost predicate Scene(x: System, d: int, wx: int, wy: int) {
    Valid(x) && Reachable(x) && Plot(x.tree) && Words(x.tree, d, wx, wy)
  }

  // The other nodes and entries are as before.
  ghost predicate Others(s: State, s': State, dir: Id, nm: string, n: Id) {
    && s'.holds == s.holds && s'.lock.Keys == s.lock.Keys + {n}
    && (forall p: Id, m :: (p, m) != (dir, nm) ==> Lookup(s', p, m) == Lookup(s, p, m))
    && (forall w :: w != n ==>
          && (w in s.parent ==> w in s'.parent && s'.parent[w] == s.parent[w])
          && (w in s.nlookup ==> w in s'.nlookup && s'.nlookup[w] == s.nlookup[w])
          && (w in s.lock ==> w in s'.lock && s'.lock[w] == s.lock[w]))
  }

  lemma StillKnown(s: State, s': State, dir: Id, nm: string, n: Id, w: Id, p: Id, m: string)
    requires Others(s, s', dir, nm, n) && (p, m) != (dir, nm) && w != n && Known(s, w, p, m) && s.lock[w] == 0
    ensures Known(s', w, p, m) && s'.lock[w] == 0
  {
  }

  lemma StillAbsent(s: State, s': State, dir: Id, nm: string, n: Id, p: Id, m: string)
    requires Others(s, s', dir, nm, n) && (p, m) != (dir, nm) && Lookup(s, p, m).None?
    ensures Lookup(s', p, m).None? && s'.holds == s.holds && s'.lock.Keys == s.lock.Keys + {n}
  {
  }

  // A new entry.
  lemma Finds(x: System, dir: Id, nm: string, n: Id) returns (x': System)
    requires Valid(x) && Reachable(x) && dir in x.tree.lock && Lookup(x.tree, dir, nm).None? && n !in x.tree.lock
    ensures Valid(x') && Reachable(x') && x' == x.(tree := x'.tree)
    ensures Known(x'.tree, n, dir, nm) && x'.tree.lock[n] == 0 && Others(x.tree, x'.tree, dir, nm, n)
  {
    hide Inv, QueueOk, Waits, Budget, Reachable, Known, Others, Find;
    var act := Tree(NodeRuns.FindNode(dir, nm, n));
    assert Enabled(x, act);
    ReachableNext(x, act);
    x' := Do(x, act);
    FindsTree(x.tree, dir, nm, n);
  }

  lemma FindsTree(s: State, dir: Id, nm: string, n: Id)
    requires Inv(s) && dir in s.lock && Lookup(s, dir, nm).None? && n !in s.lock
    ensures dir in s.refctr
    ensures var s' := Find(s, dir, nm, n); Known(s', n, dir, nm) && s'.lock[n] == 0 && Others(s, s', dir, nm, n)
  {
    hide Line, Entries, Acyclic, HoldInv, LockInv, Due;
  }

  lemma StartReachable()
    ensures Reachable(Start())
  {
    assert ReachedIn(Start(), 0);
  }

  lemma Opening() returns (x: System)
    ensures Scene(x, 0, 0, 0) && x.lockq == [] && x.all == {} && x.tree.holds == map[]
  {
    hide Valid, Reachable, TreeInv, Known, Others, Lookup;
    var x0 := Start();
    StartValid();
    StartReachable();
    NothingThere(ROOT, "d");
    NothingThere(ROOT, "e");
    NothingThere(D, "x");
    NothingThere(D, "y");
    var x1 := Finds(x0, ROOT, "d", D);
    StillAbsent(x0.tree, x1.tree, ROOT, "d", D, ROOT, "e");
    StillAbsent(x0.tree, x1.tree, ROOT, "d", D, D, "x");
    StillAbsent(x0.tree, x1.tree, ROOT, "d", D, D, "y");
    var x2 := Finds(x1, D, "x", X);
    StillKnown(x1.tree, x2.tree, D, "x", X, D, ROOT, "d");
    StillAbsent(x1.tree, x2.tree, D, "x", X, ROOT, "e");
    StillAbsent(x1.tree, x2.tree, D, "x", X, D, "y");
    x := Finds(x2, D, "y", Y);
    StillKnown(x2.tree, x.tree, D, "y", Y, D, ROOT, "d");
    StillKnown(x2.tree, x.tree, D, "y", Y, X, D, "x");
    StillAbsent(x2.tree, x.tree, D, "y", Y, ROOT, "e");
    ValidTree(x);
    KnownLive(x.tree, D, ROOT, "d");
    KnownLive(x.tree, X, D, "x");
    KnownLive(x.tree, Y, D, "y");
  }

  lemma NothingThere(p: Id, m: string)
    ensures Lookup(Start().tree, p, m).None? && Start().tree.lock.Keys == {ROOT}
  {
  }

  lemma KnownLive(s: State, n: Id, p: Id, m: string)
    requires Known(s, n, p, m)
    ensures n in s.lock
  {
  }

  lemma ValidTree(x: System)
    requires Valid(x)
    ensures Inv(x.tree) && TreeInv(x.tree)
  {
    hide TreeInv, RefInv, HoldInv, LockInv, QueueOk, Waits, Budget;
  }

  // A request takes a path that nothing is in the way of.
  lemma Takes(x: System, id: nat, a: Ask) returns (x': System)
    requires Valid(x) && Reachable(x) && Unknown(x, id) && Posed(a) && KernelAsks(x.tree, a)
    requires Placed(x.tree, a) && Clear(x.tree, a) && Rooted(x.tree, a)
    ensures Valid(x') && Reachable(x')
    ensures x' == System(After(x.tree, Token(id, false), a), x.lockq, x.all + Tokens(id))
  {
    hide Inv, QueueOk, Waits, Budget, TryAsk, KernelHolds, Reachable, Placed, Clear, Rooted, After, NoMemory;
    UnknownIds(x, id);
    AskWords(x.tree, Token(id, false), a, Enough);
    EnoughMemory(x.tree, a);
    ReachableNext(x, Get(id, a, Enough));
    x' := Do(x, Get(id, a, Enough));
  }

  // The state of a tree is as before, but for words and paths.
  lemma AfterPlot(s: State, t: Token, a: Ask)
    requires Plot(s) && Placed(s, a) && t !in s.holds
    ensures Plot(After(s, t, a))
  {
    hide TreeInv;
    TryPathEffect(s, t, a.dir, Key(a.nm), a.write);
    PlotKept(s, After(s, t, a));
  }

  // What the path of a file, or of the root, does to the words.
  lemma AttrWords(s: State, t: Token, n: Id, d: int, wx: int, wy: int)
    requires Plot(s) && Words(s, d, wx, wy) && t !in s.holds
    requires n == ROOT || (d >= 0 && ((n == X && wx >= 0) || (n == Y && wy >= 0)))
    ensures Placed(s, Attr(n)) && Clear(s, Attr(n)) && Rooted(s, Attr(n)) && Plot(After(s, t, Attr(n)))
    ensures Words(After(s, t, Attr(n)), if n == ROOT then d else d + 1, if n == X then wx + 1 else wx, if n ==
      Y then wy + 1 else wy)
    ensures After(s, t, Attr(n)).holds == s.holds[t := Hold(n, ChainOf(s, n), None)]
  {
    hide Plot, Placed, Rooted, Climbs, After;
    var a := Attr(n);
    PlotPlace(s, a);
    assert Clear(s, a);
    hide Clear;
    AfterPlot(s, t, a);
    TakenHold(s, t, a);
    TakenWords(s, t, a, D);
    TakenWords(s, t, a, X);
    TakenWords(s, t, a, Y);
  }

  // getattr of a file, or of the root
  lemma Stats(x: System, id: nat, n: Id, d: int, wx: int, wy: int) returns (x': System)
    requires Scene(x, d, wx, wy) && Unknown(x, id)
    requires n == ROOT || (d >= 0 && ((n == X && wx >= 0) || (n == Y && wy >= 0)))
    ensures Scene(x', if n == ROOT then d else d + 1, if n == X then wx + 1 else wx, if n == Y then wy + 1 else wy)
    ensures x'.lockq == x.lockq && x'.all == x.all + Tokens(id) && Holder(x', id, n) && HoldersKept(x, x', {id})
  {
    hide Valid, Reachable, Plot, Words, Placed, Rooted, Clear, Climbs, After, KernelAsks, Unknown, Holder, HoldersKept;
    UnknownIds(x, id);
    ValidTree(x);
    PlotKernel(x.tree);
    AttrWords(x.tree, Token(id, false), n, d, wx, wy);
    x' := Takes(x, id, Attr(n));
    HoldersMore(x, x', id, Hold(n, ChainOf(x.tree, n), None));
  }

  lemma HoldersMore(x: System, x': System, id: nat, h: Hold)
    requires x'.tree.holds == x.tree.holds[Token(id, false) := h] && h.wnode == None && Token(id, true) !in x.tree.holds
    ensures Holder(x', id, h.dir) && HoldersKept(x, x', {id})
  {
  }

  // ------------------------------------------------------------------ renames

  // A request for two paths, the first of which is not clear, is queued.
  lemma Waits1(x: System, id: nat, a: Ask, b: Ask) returns (x': System)
    requires Valid(x) && Reachable(x) && Unknown(x, id) && Posed(a) && Posed(b)
    requires KernelAsks(x.tree, a) && KernelAsks(x.tree, b) && Placed(x.tree, a) && !Clear(x.tree, a)
    ensures Valid(x') && Reachable(x') && x' == Join(x, id, After(x.tree, Token(id, false), a), Paths(a, Some(b)))
  {
    hide Inv, QueueOk, Waits, Budget, TryFor, KernelHolds, Reachable, Placed, Clear, Rooted, After, NoMemory, Release;
    UnknownIds(x, id);
    AskWords(x.tree, Token(id, false), a, Enough);
    EnoughMemory(x.tree, a);
    ReachableNext(x, Get2(id, a, b, PLENTY));
    x' := Do(x, Get2(id, a, b, PLENTY));
  }

  // So is one whose second path is not clear once it holds the first, which it gives back.
  lemma Waits2(x: System, id: nat, a: Ask, b: Ask) returns (x': System)
    requires Valid(x) && Reachable(x) && Unknown(x, id) && Posed(a) && Posed(b)
    requires KernelAsks(x.tree, a) && KernelAsks(x.tree, b) && Placed(x.tree, a) && Clear(x.tree, a) &&
      Rooted(x.tree, a)
    requires var s1 := After(x.tree, Token(id, false), a); Placed(s1, b) && !Clear(s1, b)
    ensures var s2 := After(After(x.tree, Token(id, false), a), Token(id, true), b);
            && Valid(x') && Reachable(x') && Inv(s2) && Token(id, false) in s2.holds
            && s2.holds[Token(id, false)] == Hold(a.dir, ChainOf(x.tree, a.dir), Target(x.tree, a))
            && s2.holds - {Token(id, false)} == x.tree.holds
            && x' == Join(x, id, Release(s2, Token(id, false)), Paths(a, Some(b)))
  {
    hide Inv, QueueOk, Waits, Budget, TryFor, Tried, KernelHolds, Reachable, Placed, Clear, Rooted, After, NoMemory,
      Release;
    var s, t1, t2 := x.tree, Token(id, false), Token(id, true);
    UnknownIds(x, id);
    AskWords(s, t1, a, Enough);
    EnoughMemory(s, a);
    TakenHold(s, t1, a);
    var s1 := After(s, t1, a);
    TriedNext(s, s1, t1, a.dir, b.dir, Key(b.nm), b.write);
    AskWords(s1, t2, b, Enough);
    EnoughMemory(s1, b);
    TriedSame(s1, After(s1, t2, b), EAGAIN, t2, b.dir);
    ReachableNext(x, Get2(id, a, b, PLENTY));
    x' := Do(x, Get2(id, a, b, PLENTY));
  }

  lemma TriedSame(s: State, s': State, err: Err, t: Token, dir: Id)
    requires Tried(s, s', err, t, dir) && err != Ok
    ensures s'.holds == s.holds && Inv(s')
  {
    hide Inv;
  }

  // What a failed attempt at an entry does to the words: x or y, or the directory.
  lemma MarkWords(s: State, t: Token, a: Ask, n: Id, d: int, wx: int, wy: int)
    requires Plot(s) && Words(s, d, wx, wy) && t !in s.holds && Placed(s, a) && !Clear(s, a)
    requires Target(s, a) == Some(n) && (n == D || n == X || n == Y)
    ensures Plot(After(s, t, a))
    ensures Words(After(s, t, a), if n == D && d > 0 then d + WAIT_OFFSET else d,
                  if n == X && wx > 0 then wx + WAIT_OFFSET else wx, if n == Y && wy > 0 then wy + WAIT_OFFSET else wy)
  {
    hide Plot, Placed, Clear, After, Target;
    AfterPlot(s, t, a);
    MarkedWords(s, t, a, D);
    MarkedWords(s, t, a, X);
    MarkedWords(s, t, a, Y);
  }

  // Taking the entry x.
  lemma TakeX(s: State, t: Token, d: int, wy: int)
    requires Plot(s) && Words(s, d, 0, wy) && t !in s.holds && d >= 0
    ensures var a := Entry(D, "x");
            && Placed(s, a) && Clear(s, a) && Rooted(s, a) && Target(s, a) == Some(X)
            && Plot(After(s, t, a)) && Words(After(s, t, a), d + 1, WRITE, wy)
            && After(s, t, a).holds == s.holds[t := Hold(D, ChainOf(s, D), Some(X))]
  {
    hide Placed, Rooted, Climbs, After;
    var a := Entry(D, "x");
    PlotPlace(s, a);
    assert Target(s, a) == Some(X);
    assert Clear(s, a);
    hide Clear, Plot, Target;
    AfterPlot(s, t, a);
    TakenHold(s, t, a);
    TakenWords(s, t, a, D);
    TakenWords(s, t, a, X);
    TakenWords(s, t, a, Y);
  }

  // The entry y is locked.
  lemma BusyY(s: State, d: int, wx: int, wy: int)
    requires Plot(s) && Words(s, d, wx, wy) && wy != 0
    ensures var b := Entry(D, "y"); Placed(s, b) && Rooted(s, b) && Target(s, b) == Some(Y) && !Clear(s, b)
  {
    hide Rooted, Climbs;
    PlotPlace(s, Entry(D, "y"));
  }

  lemma BusyX(s: State, d: int, wx: int, wy: int)
    requires Plot(s) && Words(s, d, wx, wy) && wx != 0
    ensures var b := Entry(D, "x"); Placed(s, b) && Rooted(s, b) && Target(s, b) == Some(X) && !Clear(s, b)
  {
    hide Rooted, Climbs;
    PlotPlace(s, Entry(D, "x"));
  }

  lemma BusyD(s: State, d: int, wx: int, wy: int)
    requires Plot(s) && Words(s, d, wx, wy) && d != 0
    ensures var b := Entry(ROOT, "d"); Placed(s, b) && Rooted(s, b) && Target(s, b) == Some(D) && !Clear(s, b)
  {
    hide Rooted, Climbs;
    PlotPlace(s, Entry(ROOT, "d"));
  }

  // Giving back the path of a file, of the root, or of the entry x.
  lemma FreeWords(s: State, t: Token, n: Id, v: Option<Id>, d: int, wx: int, wy: int)
    requires Inv(s) && Plot(s) && Words(s, d, wx, wy) && t in s.holds
    requires s.holds[t].dir == n && s.holds[t].wnode == v
    requires (v == None && (n == ROOT || n == X || n == Y)) || (v == Some(X) && n == D)
    ensures Plot(Release(s, t))
    ensures Words(Release(s, t), if n == ROOT then d else Unread(d),
                  if v == Some(X) then 0 else if n == X then Unread(wx) else wx, if n == Y then Unread(wy) else wy)
  {
    hide TreeInv, RefInv, HoldInv, LockInv, Plot, Placed, Climbs, Release, Unread;
    var a := Attr(n);
    PlotPlace(s, a);
    ReleaseKeys(s, t);
    PlotKept(s, Release(s, t));
    FreedWord(s, t, a, D);
    FreedWord(s, t, a, X);
    FreedWord(s, t, a, Y);
  }

  // A request that is not queued gives back its path, and the one in the queue has its turn.
  lemma Frees(x: System, id: nat, n: Id, luck: nat -> Luck, d: int, wx: int, wy: int) returns (y: System, x': System)
    requires Scene(x, d, wx, wy) && |x.lockq| == 1 && x.lockq[0].id != id && (n == ROOT || n == X || n == Y)
    requires Holder(x, id, n)
    ensures y == System(y.tree, x.lockq, x.all - Tokens(id)) && HoldersKept(x, x', {id, x.lockq[0].id})
    ensures Plot(y.tree) && Words(y.tree, if n == ROOT then d else Unread(d), if n == X then Unread(wx) else wx,
                                  if n == Y then Unread(wy) else wy)
    ensures Inv(y.tree) && Fit(y.tree, x.lockq[0], y.all) && Settled(x.lockq[0]) && Valid(x') && Reachable(x')
    ensures var (s, e) := Wake(y.tree, x.lockq[0], true, luck(0), y.all); x' == System(s, [e], y.all)
  {
    hide Inv, QueueOk, Waits, Budget, Plot, Words, Fit, Wake, Settled, Reachable, WakeAll, Release, Unread;
    FreeWords(x.tree, Token(id, false), n, None, d, wx, wy);
    ReleaseKeys(x.tree, Token(id, false));
    ReachableNext(x, Free(id, luck));
    x' := Do(x, Free(id, luck));
    y := GivenUp(x, id);
    FreeUnfold(x, id, luck);
    WakesOne(y, luck);
    FreesHolders(x, y, x', id, x.lockq[0].id);
  }

  lemma FreesHolders(x: System, y: System, x': System, id: nat, other: nat)
    requires y.tree.holds == x.tree.holds - {Token(id, false)} && SameBut(y.tree.holds, x'.tree.holds, other)
    ensures HoldersKept(x, x', {id, other})
  {
  }

  lemma FreeUnfold(x: System, id: nat, luck: nat -> Luck)
    requires Valid(x) && Enabled(x, Free(id, luck))
    ensures Do(x, Free(id, luck)) == WakeAll(GivenUp(x, id), 0, luck)
  {
    hide Valid, WakeAll, GivenUp;
  }

  // Waking a queue of one.
  lemma WakesOne(x: System, luck: nat -> Luck)
    requires Valid(x) && |x.lockq| == 1
    ensures Fit(x.tree, x.lockq[0], x.all) && Settled(x.lockq[0])
    ensures var (s, e) := Wake(x.tree, x.lockq[0], true, luck(0), x.all);
            WakeAll(x, 0, luck) == System(s, [e], x.all)
  {
    hide Valid, Fit, Wake, Settled;
    FitAt(x, 0);
    var y := Turn(x, 0, luck(0));
    KeptSize(x, y);
    assert WakeAll(y, 1, luck) == y;
    assert x.lockq[0 := y.lockq[0]] == [y.lockq[0]];
  }

  // ------------------------------------------------------------------ the turns of the rename of x to y

  function Rename_(): Want {
    Paths(Entry(D, "x"), Some(Entry(D, "y")))
  }

  // Without memory for the first path the request is done with that error.
  lemma FailsFirst(s: State, e: Elem, all: set<Token>)
    requires Fit(s, e, all) && Settled(e) && e.Two() && e.Empty() && !e.done
    ensures Wake(s, e, true, Luck(FailsAt(0), Enough), all) == (s, e.(done := true, err := ENOMEM))
  {
    hide Inv, KernelHolds, OutOfMemory, TryAsk;
    Room(s.holds, all, e.T1());
    NoBuffer(s, e.T1(), e.want.first);
  }

  lemma NoBuffer(s: State, t: Token, a: Ask)
    requires Inv(s) && t !in s.holds && |s.holds| < INT_MAX - 1 && KernelAsks(s, a)
    ensures TryAsk(s, t, a, FailsAt(0)) == (s, ENOMEM)
  {
    hide TreeInv, RefInv, HoldInv, LockInv, KernelHolds, Clear, Rooted, After, TryAsk, ClimbFails;
    AskWords(s, t, a, FailsAt(0));
  }

  // With x free and y locked, the request takes x and keeps it.
  lemma KeepsX(s: State, e: Elem, d: int, wy: int, all: set<Token>)
    requires Fit(s, e, all) && Settled(e) && e.want == Rename_() && e.Empty() && Plot(s) && Words(s, d, 0, wy)
    requires d >= 0 && wy != 0
    ensures var (s', e') := Wake(s, e, true, PLENTY, all);
            && e'.firstLocked && !e'.secondLocked && e'.done == e.done && e'.err == e.err && e'.id == e.id
            && e'.want == e.want && Plot(s') && Words(s', d + 1, WRITE, if wy > 0 then wy + WAIT_OFFSET else wy)
  {
    hide Fit, First, Second, GiveBack, Placed, Clear, Rooted, NoMemory, After, Inv, Plot, Words, Target;
    var a, b := Entry(D, "x"), Entry(D, "y");
    FitPlaced(s, e, all);
    TakeX(s, e.T1(), d, wy);
    EnoughMemory(s, a);
    FirstWords(s, e, Enough, all);
    var (s1, e1, err1) := First(s, e, Enough, all);
    FitPlaced(s1, e1, all);
    BusyY(s1, d + 1, WRITE, wy);
    EnoughMemory(s1, b);
    SecondWords(s1, e1, Enough, all);
    MarkWords(s1, e.T2(), b, Y, d + 1, WRITE, wy);
  }

  // ------------------------------------------------------------------ a path is lost

  // Requests 1 and 2 read the attributes of y and x.
  lemma Reading() returns (x: System)
    ensures Scene(x, 2, 1, 1) && x.lockq == [] && Few(x, {1, 2}) && Holder(x, 2, X)
  {
    hide Scene, Few, Unknown, Holder;
    var x0 := Opening();
    NoneYet(x0);
    FewUnknown(x0, {}, 1);
    var x1 := Stats(x0, 1, Y, 0, 0, 0);
    FewMore(x0, x1, {}, 1);
    assert {} + {1} == {1} && |{1}| == 1;
    FewUnknown(x1, {1}, 2);
    x := Stats(x1, 2, X, 1, 0, 1);
    FewMore(x1, x, {1}, 2);
    assert {1} + {2} == {1, 2};
  }

  lemma NoneYet(x: System)
    requires x.all == {}
    ensures Few(x, {})
  {
  }

  // Request 3 waits to rename x to y, and marks x.
  lemma RenameX(x: System, id: nat, d: int, wx: int, wy: int) returns (x': System)
    requires Scene(x, d, wx, wy) && Unknown(x, id) && wx > 0
    ensures Scene(x', d, wx + WAIT_OFFSET, wy) && x'.lockq == x.lockq + [Queued(id, Rename_())]
    ensures x'.all == x.all + Tokens(id) && HoldersKept(x, x', {})
  {
    hide Valid, Reachable, Plot, Words, Placed, Clear, Rooted, Target, After, KernelAsks, Unknown;
    UnknownIds(x, id);
    ValidTree(x);
    PlotKernel(x.tree);
    BusyX(x.tree, d, wx, wy);
    MarkWords(x.tree, Token(id, false), Entry(D, "x"), X, d, wx, wy);
    MarkHolds(x.tree, Token(id, false), Entry(D, "x"));
    x' := Waits1(x, id, Entry(D, "x"), Entry(D, "y"));
  }

  // Requests 1 and 2 read the attributes of y and x, request 3 waits to rename x to y, request 4 reads the root's.
  lemma Waiting() returns (x: System)
    ensures Scene(x, 2, 1 + WAIT_OFFSET, 1) && x.lockq == [Queued(3, Rename_())] && Holder(x, 2, X) &&
      Holder(x, 4, ROOT)
  {
    hide Scene, Few, Unknown, Holder;
    var x2 := Reading();
    assert |{1, 2}| == 2 && |{1, 2} + {3}| == 3;
    FewUnknown(x2, {1, 2}, 3);
    var x3 := RenameX(x2, 3, 2, 1, 1);
    FewMore(x2, x3, {1, 2}, 3);
    FewUnknown(x3, {1, 2} + {3}, 4);
    x := Stats(x3, 4, ROOT, 2, 1 + WAIT_OFFSET, 1);
  }

  lemma MarkHolds(s: State, t: Token, a: Ask)
    requires Placed(s, a) && !Clear(s, a) && t !in s.holds
    ensures After(s, t, a).holds == s.holds
  {
    hide TreeInv;
    TryWords(s, t, a);
    TryPathEffect(s, t, a.dir, Key(a.nm), a.write);
  }

  /** Request 4 is done, and there is no memory for request 3; request 2 is done before request 3 has left the queue, so
      request 3 is given x.  It leaves with its error, and nobody will give that path back. */
  lemma Leak() returns (x: System, y: System)
    ensures Valid(x) && Reachable(x) && |x.lockq| == 1 && x.lockq[0].done && x.lockq[0].err == ENOMEM
    ensures y == WaitPath(x, 0) && Reachable(y) && y.lockq == [] && x.lockq[0].T1() in y.tree.holds
  {
    hide Valid, Reachable, WaitPath;
    var x1 := FailedRename();
    x := GivenOne(x1);
    ReachableNext(x, Leave(0));
    y := WaitPath(x, 0);
    LeaveHolds(x, 0);
    LeavesEmpty(x);
  }

  // Request 4 is done, and there is no memory for request 3.
  lemma FailedRename() returns (x: System)
    ensures Scene(x, 2, 1 + WAIT_OFFSET, 1) && Holder(x, 2, X)
    ensures x.lockq == [Queued(3, Rename_()).(done := true, err := ENOMEM)]
  {
    hide Valid, Reachable, Plot, Words, Fit, Wake, Settled, Holder, HoldersKept, Unread;
    var x0 := Waiting();
    var luck: nat -> Luck := _ => Luck(FailsAt(0), Enough);
    var z;
    z, x := Frees(x0, 4, ROOT, luck, 2, 1 + WAIT_OFFSET, 1);
    FailsFirst(z.tree, x0.lockq[0], z.all);
    HoldersStay(x0, x, {4, 3}, 2, X);
  }

  lemma HoldersStay(x: System, x': System, ids: set<nat>, j: nat, m: Id)
    requires HoldersKept(x, x', ids) && j !in ids && Holder(x, j, m)
    ensures Holder(x', j, m)
  {
  }

  // Request 2 is done: request 3 is given x.
  lemma GivenOne(x0: System) returns (x: System)
    requires Scene(x0, 2, 1 + WAIT_OFFSET, 1) && Holder(x0, 2, X)
    requires x0.lockq == [Queued(3, Rename_()).(done := true, err := ENOMEM)]
    ensures Valid(x) && Reachable(x) && |x.lockq| == 1 && x.lockq[0].done && x.lockq[0].err == ENOMEM
    ensures x.lockq[0].firstLocked
  {
    hide Valid, Reachable, Plot, Words, Fit, Wake, Settled, Holder;
    var z;
    z, x := Frees(x0, 2, X, _ => PLENTY, 2, 1 + WAIT_OFFSET, 1);
    KeepsX(z.tree, x0.lockq[0], 1, 1, z.all);
  }

  lemma LeavesEmpty(x: System)
    requires Valid(x) && |x.lockq| == 1 && x.lockq[0].done
    ensures WaitPath(x, 0).lockq == []
  {
  }

  // ------------------------------------------------------------------ a deadlock

  // A rename of x to y that gets x, finds y locked, gives x back, and waits.
  lemma RenameBack(x: System, id: nat, d: int, wy: int) returns (x': System)
    requires Scene(x, d, 0, wy) && Unknown(x, id) && d > 0 && wy > 0
    ensures Scene(x', d, 0, wy + WAIT_OFFSET) && x'.lockq == x.lockq + [Queued(id, Rename_())]
    ensures x'.all == x.all + Tokens(id)
  {
    hide Valid, Reachable, Plot, Words, Placed, Clear, Rooted, Target, After, KernelAsks, Release, Unknown;
    var s, t1, t2, a, b := x.tree, Token(id, false), Token(id, true), Entry(D, "x"), Entry(D, "y");
    UnknownIds(x, id);
    ValidTree(x);
    PlotKernel(s);
    TakeX(s, t1, d, wy);
    var s1 := After(s, t1, a);
    BusyY(s1, d + 1, WRITE, wy);
    MarkWords(s1, t2, b, Y, d + 1, WRITE, wy);
    x' := Waits2(x, id, a, b);
    FreeWords(After(s1, t2, b), t1, D, Some(X), d + 1, WRITE, wy + WAIT_OFFSET);
  }

  // Request 1 reads the attributes of y, request 2 waits to rename x to y, request 3 reads the root's.
  lemma Contending() returns (x: System)
    ensures Scene(x, 1, 0, 1 + WAIT_OFFSET) && x.lockq == [Queued(2, Rename_())] && Few(x, {1, 2, 3}) &&
      Holder(x, 3, ROOT)
  {
    hide Scene, Few, Unknown, Holder;
    var x0 := Opening();
    NoneYet(x0);
    FewUnknown(x0, {}, 1);
    var x1 := Stats(x0, 1, Y, 0, 0, 0);
    FewMore(x0, x1, {}, 1);
    assert {} + {1} == {1} && |{1}| == 1 && |{1} + {2}| == 2;
    FewUnknown(x1, {1}, 2);
    var x2 := RenameBack(x1, 2, 1, 1);
    FewMore(x1, x2, {1}, 2);
    FewUnknown(x2, {1} + {2}, 3);
    x := Stats(x2, 3, ROOT, 1, 0, 1 + WAIT_OFFSET);
    FewMore(x2, x, {1} + {2}, 3);
    assert {1} + {2} + {3} == {1, 2, 3};
  }

  // Request 3 is done: request 2 takes x and keeps it, as the head may.
  lemma HeadKeeps() returns (x: System)
    ensures Scene(x, 2, WRITE, 1 + WAIT_OFFSET) && Few(x, {1, 2, 3}) && |x.lockq| == 1
    ensures x.lockq[0].want == Rename_() && x.lockq[0].firstLocked && !x.lockq[0].secondLocked && !x.lockq[0].done
  {
    hide Valid, Reachable, Plot, Words, Fit, Wake, Settled, Holder, Few;
    var x0 := Contending();
    var z;
    z, x := Frees(x0, 3, ROOT, _ => PLENTY, 1, 0, 1 + WAIT_OFFSET);
    KeepsX(z.tree, x0.lockq[0], 1, 1 + WAIT_OFFSET, z.all);
    FewLess(x0, x, {1, 2, 3}, 3);
  }

  // A rename of d, which somebody reads, waits and marks it.
  lemma RenameD(x: System, id: nat, d: int, wx: int, wy: int) returns (x': System)
    requires Scene(x, d, wx, wy) && Unknown(x, id) && d > 0
    ensures Scene(x', d + WAIT_OFFSET, wx, wy)
    ensures x'.lockq == x.lockq + [Queued(id, Paths(Entry(ROOT, "d"), Some(Entry(ROOT, "e"))))]
  {
    hide Valid, Reachable, Plot, Words, Placed, Clear, Rooted, Target, After, KernelAsks, Unknown;
    UnknownIds(x, id);
    ValidTree(x);
    PlotKernel(x.tree);
    BusyD(x.tree, d, wx, wy);
    MarkWords(x.tree, Token(id, false), Entry(ROOT, "d"), D, d, wx, wy);
    x' := Waits1(x, id, Entry(ROOT, "d"), Entry(ROOT, "e"));
  }

  /** Request 4 asks to rename d, and marks it: the rename of x to y, which holds x and reads d, waits for the mark
      to go, and the rename of d waits for it. */
  lemma Deadlock() returns (x: System)
    ensures Valid(x) && Reachable(x) && Deadlocked(x) && |x.lockq| == 2
    ensures x.lockq[0].want == Rename_() && x.lockq[1].want == Paths(Entry(ROOT, "d"), Some(Entry(ROOT, "e")))
  {
    hide Valid, Reachable, Plot, Marked, Few, Unknown;
    var x1 := HeadKeeps();
    FewUnknown(x1, {1, 2, 3}, 4);
    x := RenameD(x1, 4, 2, WRITE, 1 + WAIT_OFFSET);
    HeadReadsD(x);
  }

  lemma HeadReadsD(x: System)
    requires Valid(x) && x.lockq != [] && x.lockq[0].want == Rename_() && x.lockq[0].firstLocked
    requires Plot(x.tree) && D in x.tree.lock && x.tree.lock[D] < 0
    ensures Marked(x.tree, x.lockq[0].T1(), D)
  {
    hide Inv, QueueOk, Waits, Budget, Plot, Rooted, Climbs;
    HeadElem(x);
    PlotPlace(x.tree, Entry(D, "x"));
    HeldPlace(x.tree, x.lockq[0].T1(), Entry(D, "x"));
  }
}
