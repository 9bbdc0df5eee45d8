/** A deadlock of the lock queue: a head that holds one of its two paths, in a directory that a writer awaits,
    blocks its own second path for good. */
module QueueDeadlock {
  import opened Common
  import opened NodeTree
  import opened NodeSteps
  import opened FuseNodes
  import opened QueueSteps
  import opened QueueRuns
  import opened QueueProgress
  import NodeRuns

  // ------------------------------------------------------------------ a waiting mark under a held path

  // `t` reads `n`, which a writer awaits.
  ghost predicate Marked(s: State, t: Token, n: Id) {
    t in s.holds && Reads(s.holds[t], n) && n in s.lock && s.lock[n] < 0
  }

  // Such a word counts the readers below the mark.
  lemma MarkedWord(s: State, t: Token, n: Id)
    requires Inv(s) && Marked(s, t, n)
    ensures Writers(s.holds, n) == {} && t in Readers(s.holds, n)
    ensures s.lock[n] == WAIT_OFFSET + |Readers(s.holds, n)| && |Readers(s.holds, n)| > 0
  {
    hide TreeInv, RefInv, HoldInv;
    assert t in Readers(s.holds, n);
    assert Decodes(s.lock[n], |Readers(s.holds, n)|, |Writers(s.holds, n)|);
  }

  // No attempt of another request removes the mark.
  lemma TryKeepsMark(s: State, t0: Token, n: Id, t: Token, dir: Id, nm: string, write: bool, m: Memory)
    requires Inv(s) && Marked(s, t0, n) && t !in s.holds && |s.holds| < INT_MAX - 1 && KernelHolds(s, dir, nm, write)
    ensures Marked(TryFor(s, t, dir, nm, write, m).0, t0, n)
  {
    hide RefInv, HoldInv, LockInv, Line, Acyclic, Entries, OutOfMemory, KernelHolds;
    KernelDir(s, dir, nm, write);
    TryForIs(s, t, dir, nm, write, m);
    var a := Ask(dir, Some(nm), write);
    TryPathEffect(s, t, dir, nm, write);
    TryWords(s, t, a);
    if Clear(s, a) && Rooted(s, a) {
      TakenWords(s, t, a, n);
    }
  }

  // Nor does another request that gives its path back: this one still reads.
  lemma ReleaseKeepsMark(s: State, t0: Token, n: Id, t: Token)
    requires Inv(s) && Marked(s, t0, n) && t in s.holds && t != t0
    ensures Marked(Release(s, t), t0, n)
  {
    hide TreeInv, RefInv, HoldInv, LockInv, Readers, Writers;
    MarkedWord(s, t0, n);
    OtherReaders(s.holds, t0, t, n);
  }

  lemma OtherReaders(holds: map<Token, Hold>, t0: Token, t: Token, n: Id)
    requires t in holds && t0 in holds && t != t0 && t0 in Readers(holds, n) && Writers(holds, n) == {}
    ensures !Writes(holds[t], n) && (Reads(holds[t], n) ==> |Readers(holds, n)| > 1)
  {
    assert t in Writers(holds, n) <==> Writes(holds[t], n);
    if Reads(holds[t], n) {
      SubsetSize({t, t0}, Readers(holds, n));
    }
  }

  lemma AskKeepsMark(s: State, t0: Token, n: Id, t: Token, a: Ask, m: Memory)
    requires Inv(s) && Marked(s, t0, n) && t !in s.holds && |s.holds| < INT_MAX - 1 && KernelAsks(s, a)
    ensures Marked(TryAsk(s, t, a, m).0, t0, n)
  {
    hide Inv, Marked, TryFor, KernelHolds;
    TryKeepsMark(s, t0, n, t, a.dir, Key(a.nm), a.write, m);
  }

  lemma FirstKeepsMark(s: State, t0: Token, n: Id, e: Elem, m: Memory, all: set<Token>)
    requires Fit(s, e, all) && e.want.Paths? && Marked(s, t0, n)
    ensures Marked(First(s, e, m, all).0, t0, n)
  {
    hide Inv, Marked, TryAsk, KernelHolds;
    if !e.firstLocked {
      Room(s.holds, all, e.T1());
      AskKeepsMark(s, t0, n, e.T1(), e.want.first, m);
    }
  }

  lemma SecondKeepsMark(s: State, t0: Token, n: Id, e: Elem, m: Memory, all: set<Token>)
    requires Fit(s, e, all) && e.want.Paths? && Marked(s, t0, n)
    ensures Marked(Second(s, e, m, all).0, t0, n)
  {
    hide Inv, Marked, TryAsk, KernelHolds;
    if e.Two() && !e.secondLocked {
      Room(s.holds, all, e.T2());
      AskKeepsMark(s, t0, n, e.T2(), e.want.second.value, m);
    }
  }

  lemma GiveBackKeepsMark(s: State, t0: Token, n: Id, e: Elem, all: set<Token>)
    requires Fit(s, e, all) && Marked(s, t0, n) && t0.request != e.id
    ensures Marked(GiveBack(s, e, all).0, t0, n)
  {
    hide Inv, Marked, Freed, KernelHolds;
    var s1 := s;
    if e.firstLocked {
      ReleaseKeepsInv(s, e.T1());
      ReleaseKeepsMark(s, t0, n, e.T1());
      s1 := Release(s, e.T1());
    }
    if e.secondLocked {
      ReleaseKeepsInv(s1, e.T2());
      ReleaseKeepsMark(s1, t0, n, e.T2());
    }
  }

  // The turn of another request keeps the mark.
  lemma WakeKeepsMark(s: State, t0: Token, n: Id, e: Elem, head: bool, luck: Luck, all: set<Token>)
    requires Fit(s, e, all) && Settled(e) && Marked(s, t0, n) && t0.request != e.id
    ensures Marked(Wake(s, e, head, luck, all).0, t0, n)
  {
    hide Fit, Marked, First, Second, GiveBack, Frame;
    if e.want.Paths? {
      FirstKeepsMark(s, t0, n, e, luck.first, all);
      var (s1, e1, err1) := First(s, e, luck.first, all);
      if Hard(err1) {
        GiveBackKeepsMark(s1, t0, n, e1, all);
      } else {
        SecondKeepsMark(s1, t0, n, e1, luck.second, all);
        var (s2, e2, err2) := Second(s1, e1, luck.second, all);
        GiveBackKeepsMark(s2, t0, n, e2, all);
      }
    }
  }

  // ------------------------------------------------------------------ the deadlock

  // The head holds its first path, waits for a second one in the same directory, and a writer waits for the directory.
  ghost predicate Deadlocked(x: System) {
    && x.lockq != [] && x.lockq[0].Two() && x.lockq[0].firstLocked && !x.lockq[0].secondLocked && !x.lockq[0].done
    && x.lockq[0].want.second.value.dir == x.lockq[0].want.first.dir
    && Marked(x.tree, x.lockq[0].T1(), x.lockq[0].want.first.dir)
  }

  // Its own reading of the directory is in the way of its second path.
  lemma SelfBlocked(s: State, e: Elem, luck: Luck, all: set<Token>)
    requires Fit(s, e, all) && Settled(e) && e.Two() && e.firstLocked && !e.secondLocked && !e.done
    requires e.want.second.value.dir == e.want.first.dir && Marked(s, e.T1(), e.want.first.dir)
    requires luck.second == Enough
    ensures var (s', e') := Wake(s, e, true, luck, all);
            && e' == e.(wnode2 := e'.wnode2) && Marked(s', e.T1(), e.want.first.dir)
  {
    hide Fit, Marked, First, Second, GiveBack, Frame, Clear, Placed, NoMemory, Rooted;
    FitPlaced(s, e, all);
    FirstKeepsMark(s, e.T1(), e.want.first.dir, e, luck.first, all);
    SecondKeepsMark(s, e.T1(), e.want.first.dir, e, luck.second, all);
    SecondWords(s, e, luck.second, all);
    EnoughMemory(s, e.want.second.value);
    DirOnClimb(s, e, all);
  }

  lemma DirOnClimb(s: State, e: Elem, all: set<Token>)
    requires Fit(s, e, all) && e.Two() && e.firstLocked
    requires e.want.second.value.dir == e.want.first.dir && Marked(s, e.T1(), e.want.first.dir)
    requires Placed(s, e.want.first) && Placed(s, e.want.second.value)
    ensures !Clear(s, e.want.second.value)
  {
    hide TreeInv, RefInv, HoldInv, LockInv, Rooted, KernelHolds;
    HeldPlace(s, e.T1(), e.want.first);
    assert e.want.first.dir in Climbs(s, e.want.second.value);
  }

  lemma DeadlockTurn(x: System, i: nat, luck: Luck)
    requires Valid(x) && Deadlocked(x) && i < |x.lockq| && (i == 0 ==> luck.second == Enough)
    ensures Deadlocked(Turn(x, i, luck))
  {
    hide Inv, QueueOk, Waits, Budget, Fit, Wake, Settled, Marked, Frame, Kept;
    FitAt(x, i);
    FitAt(x, 0);
    if i == 0 {
      SelfBlocked(x.tree, x.lockq[0], luck, x.all);
    } else {
      DistinctIds(x.lockq, x.tree.holds, 0, i);
      WakeKeepsMark(x.tree, x.lockq[0].T1(), x.lockq[0].want.first.dir, x.lockq[i], false, luck, x.all);
    }
  }

  lemma DistinctIds(q: seq<Elem>, holds: map<Token, Hold>, i: nat, j: nat)
    requires QueueOk(q, holds) && i < j < |q|
    ensures q[i].id != q[j].id
  {
    hide ElemOk;
  }

  lemma {:induction false} DeadlockWakes(x: System, i: nat, luck: nat -> Luck)
    requires Valid(x) && Deadlocked(x) && i <= |x.lockq| && luck(0).second == Enough
    ensures Deadlocked(WakeAll(x, i, luck))
    decreases |x.lockq| - i
  {
    hide Valid, Deadlocked, Turn, Kept;
    if i < |x.lockq| {
      DeadlockTurn(x, i, luck(i));
      var y := Turn(x, i, luck(i));
      KeptSize(x, y);
      DeadlockWakes(y, i + 1, luck);
    }
  }

  // ------------------------------------------------------------------ whatever happens

  lemma BothKeepsMark(s: State, t0: Token, n: Id, t1: Token, dir1: Id, nm1: string, write1: bool,
                      t2: Token, dir2: Id, nm2: string, write2: bool, luck: Luck)
    requires Inv(s) && t1 !in s.holds && t2 !in s.holds && t1 != t2 && |s.holds| < INT_MAX - 2
    requires KernelHolds(s, dir1, nm1, write1) && KernelHolds(s, dir2, nm2, write2) && Marked(s, t0, n)
    ensures Marked(TryBoth(s, t1, dir1, nm1, write1, t2, dir2, nm2, write2, luck).0, t0, n)
  {
    hide Inv, Marked, TryFor, Tried, KernelHolds, Release;
    TryKeepsMark(s, t0, n, t1, dir1, nm1, write1, luck.first);
    var (s1, err1) := TryFor(s, t1, dir1, nm1, write1, luck.first);
    if err1 == Ok {
      TriedNext(s, s1, t1, dir1, dir2, nm2, write2);
      TryKeepsMark(s1, t0, n, t2, dir2, nm2, write2, luck.second);
      var (s2, err2) := TryFor(s1, t2, dir2, nm2, write2, luck.second);
      HoldKept(s, s1, s2, err2, t1, dir1, t2, dir2);
      MarkedHeld(s, t0, n);
      ReleaseKeepsMark(s2, t0, n, t1);
    }
  }

  lemma MarkedHeld(s: State, t: Token, n: Id)
    requires Marked(s, t, n)
    ensures t in s.holds
  {
  }

  // The lock words of nodes that stay are kept.
  ghost predicate SameWords(s: State, s': State) {
    s'.holds == s.holds && forall m :: m in s.lock && m in s'.lock ==> s'.lock[m] == s.lock[m]
  }

  lemma FellWords(s: State, c: seq<Id>)
    ensures SameWords(s, Fell(s, c)) && Fell(s, c).lock.Keys <= s.lock.Keys
  {
  }

  lemma UnhashWords(s: State, w: Id)
    requires TreeInv(s)
    ensures SameWords(s, Unhash(s, w)) && Unhash(s, w).lock.Keys <= s.lock.Keys
  {
    hide Line, Acyclic;
    if w in s.parent {
      var d := s.parent[w];
      DetachKeepsTree(s, w);
      assert HasLine(Detach(s, w).parent, d) by { EntryPresent(s, w); DetachHasLine(s, w); }
      FellWords(Detach(s, w), LineOf(Detach(s, w).parent, d));
    }
  }

  lemma DetachHasLine(s: State, w: Id)
    requires TreeInv(s) && w in s.parent && TreeInv(Detach(s, w)) && s.parent[w] in s.lock
    ensures HasLine(Detach(s, w).parent, s.parent[w])
  {
  }

  lemma ForgetWords(s: State, n: Id, k: nat)
    requires Inv(s) && MayForget(s, n, k)
    ensures SameWords(s, Forget(s, n, k))
  {
    hide Line, Acyclic, Entries, RefInv, HoldInv, LockInv;
    var s1 := Forsaken(s, n, k);
    assert HasLine(s.parent, n) by { TreeLine(s, n); }
    FellWords(s1, LineOf(s1.parent, n));
  }

  lemma TreeLine(s: State, n: Id)
    requires TreeInv(s) && n in s.lock
    ensures HasLine(s.parent, n)
  {
  }

  lemma OnTreeWords(s: State, step: NodeRuns.Step)
    requires Inv(s) && NodeRuns.Enabled(s, step) && OnTree(step)
    ensures SameWords(s, NodeRuns.Do(s, step))
  {
    hide TreeInv, RefInv, HoldInv, LockInv, SameWords, MayRename, Find, RemoveNode, Rename;
    match step
    case FindNode(dir, nm, newId) =>
      FindKeepsInv(s, dir, nm, newId);
      FindWords(s, dir, nm, newId);
    case FindSelf(n) =>
      SelfWords(s, n);
    case RemoveEntry(t, nm) =>
      RemoveWords(s, t, nm);
    case RenameNode(tOld, oldname, tNew, newname, hiding, oom) =>
      RenameWords(s, tOld, oldname, tNew, newname, hiding, oom);
  }

  lemma FindWords(s: State, dir: Id, nm: string, newId: Id)
    requires Inv(s) && dir in s.lock && newId !in s.lock
    requires Lookup(s, dir, nm).Some? ==> Lookup(s, dir, nm).value in s.lock
    ensures SameWords(s, Find(s, dir, nm, newId))
  {
    hide Line, Entries, Acyclic, Conserved, HoldInv, LockInv;
  }

  lemma SelfWords(s: State, n: Id)
    requires Inv(s) && n in s.lock
    ensures SameWords(s, IncLookup(s, n))
  {
    hide Line, Entries, Acyclic, Conserved, HoldInv, LockInv;
  }

  lemma RemoveWords(s: State, t: Token, nm: string)
    requires TreeInv(s) && t in s.holds
    ensures SameWords(s, RemoveNode(s, t, nm)) && RemoveNode(s, t, nm).lock.Keys <= s.lock.Keys
  {
    hide TreeInv, Unhash;
    var e := Lookup(s, s.holds[t].dir, nm);
    if e.Some? {
      UnhashWords(s, e.value);
    }
  }

  lemma RenameWords(s: State, old_: Token, oldname: string, new_: Token, newname: string, hiding: bool, oom: bool)
    requires Inv(s) && MayRename(s, old_, oldname, new_, newname, hiding)
    ensures SameWords(s, Rename(s, old_, oldname, new_, newname, hiding, oom))
  {
    hide TreeInv, RefInv, HoldInv, LockInv, Unhash, Attachable;
    var node := Lookup(s, s.holds[old_].dir, oldname);
    if node.Some? && (Lookup(s, s.holds[new_].dir, newname).Some? ==> !hiding) {
      ReplacedKeepsInv(s, old_, oldname, new_, newname, hiding);
      RenamedDetached(s, old_, oldname, new_, newname, hiding);
      UnhashWords(Replaced(s, new_, newname), node.value);
    }
  }

  // A change of the tree that keeps the words and the kernel's references keeps the deadlock.
  lemma DeadlockTree(x: System, s: State, base: State)
    requires Valid(x) && Deadlocked(x) && Waits(base, x.lockq, x.all) && StillReferenced(base, s)
    requires base.lock == x.tree.lock && SameWords(x.tree, s)
    ensures Deadlocked(x.(tree := s))
  {
    hide Inv, QueueOk, Budget;
    assert KernelWaits(base, x.lockq[0]);
  }

  // The action gives the head no failing allocation.
  ghost predicate Spares(act: Action) {
    (act.Free? || act.Free2?) ==> act.luck(0).second == Enough
  }

  /** A deadlock stays: no action of anyone ends it, unless an allocation fails for the head. */
  lemma DeadlockStays(x: System, act: Action)
    requires Valid(x) && Deadlocked(x) && Enabled(x, act) && Spares(act)
    ensures Deadlocked(Do(x, act)) && Do(x, act).lockq[0].id == x.lockq[0].id
  {
    hide Valid, Deadlocked, KernelAsks, KernelWaits, NodeRuns.Enabled, MayForgetNow, GetPath, GetPath2, FreePath,
      FreePath2,
         WaitPath, ForgetNode, ForgetWoken, OnTheTree;
    match act
    case Get(id, a, memory) => DeadlockGet(x, id, a, memory);
    case Get2(id, a, b, luck2) => DeadlockGet2(x, id, a, b, luck2);
    case Free(id, luck) => DeadlockFree(x, id, luck);
    case Free2(id, luck) => DeadlockFree2(x, id, luck);
    case Leave(i) => DeadlockLeave(x, i);
    case Forget_(id, n, k) => DeadlockForget(x, id, n, k);
    case ForgetLate(i) => DeadlockForgetLate(x, i);
    case Tree(step) => DeadlockOnTree(x, step);
  }

  lemma DeadlockGet(x: System, id: nat, a: Ask, m: Memory)
    requires Valid(x) && Deadlocked(x) && Unknown(x, id) && Posed(a) && KernelAsks(x.tree, a)
    ensures var x' := GetPath(x, id, a, m); Deadlocked(x') && x'.lockq[0].id == x.lockq[0].id
  {
    hide Inv, QueueOk, Waits, Budget, TryAsk, Marked, KernelHolds, Unknown;
    UnknownIds(x, id);
    AskKeepsMark(x.tree, x.lockq[0].T1(), x.lockq[0].want.first.dir, Token(id, false), a, m);
  }

  lemma DeadlockGet2(x: System, id: nat, a: Ask, b: Ask, luck: Luck)
    requires Valid(x) && Deadlocked(x) && Unknown(x, id) && Posed(a) && Posed(b)
    requires KernelAsks(x.tree, a) && KernelAsks(x.tree, b)
    ensures var x' := GetPath2(x, id, a, b, luck); Deadlocked(x') && x'.lockq[0].id == x.lockq[0].id
  {
    hide Inv, QueueOk, Waits, Budget, TryBoth, Marked, KernelHolds, Unknown;
    UnknownIds(x, id);
    BothKeepsMark(x.tree, x.lockq[0].T1(), x.lockq[0].want.first.dir, Token(id, false), a.dir, Key(a.nm), a.write,
      Token(id, true), b.dir, Key(b.nm), b.write, luck);
  }

  lemma DeadlockFree(x: System, id: nat, luck: nat -> Luck)
    requires Valid(x) && Deadlocked(x) && NotWaiting(x.lockq, id) && luck(0).second == Enough
    requires Token(id, false) in x.tree.holds && Token(id, true) !in x.tree.holds
    ensures var x' := FreePath(x, id, luck); Deadlocked(x') && x'.lockq != [] && x'.lockq[0].id == x.lockq[0].id
  {
    hide Inv, QueueOk, Waits, Budget, Marked, Release, WakeAll;
    ReleaseKeepsMark(x.tree, x.lockq[0].T1(), x.lockq[0].want.first.dir, Token(id, false));
    var y := GivenUp(x, id);
    DeadlockWakes(y, 0, luck);
    assert Kept(y, WakeAll(y, 0, luck));
  }

  lemma DeadlockFree2(x: System, id: nat, luck: nat -> Luck)
    requires Valid(x) && Deadlocked(x) && NotWaiting(x.lockq, id) && luck(0).second == Enough
    requires Token(id, false) in x.tree.holds && Token(id, true) in x.tree.holds
    ensures var x' := FreePath2(x, id, luck); Deadlocked(x') && x'.lockq != [] && x'.lockq[0].id == x.lockq[0].id
  {
    hide Inv, QueueOk, Waits, Budget, Marked, Freed, WakeAll;
    var t0, n := x.lockq[0].T1(), x.lockq[0].want.first.dir;
    ReleaseKeepsMark(x.tree, t0, n, Token(id, false));
    ReleaseKeepsInv(x.tree, Token(id, false));
    ReleaseKeepsMark(Release(x.tree, Token(id, false)), t0, n, Token(id, true));
    var y := GivenUp2(x, id);
    DeadlockWakes(y, 0, luck);
    assert Kept(y, WakeAll(y, 0, luck));
  }

  lemma DeadlockLeave(x: System, i: nat)
    requires Valid(x) && Deadlocked(x) && i < |x.lockq| && x.lockq[i].done
    ensures var x' := WaitPath(x, i); Deadlocked(x') && x'.lockq[0].id == x.lockq[0].id
  {
    hide Inv, QueueOk, Waits, Budget, Marked;
  }

  lemma DeadlockForgotten(x: System, n: Id, k: nat)
    requires Valid(x) && Deadlocked(x) && MayForgetNow(x, n, k)
    ensures Deadlocked(Forgotten(x, n, k)) && Forgotten(x, n, k).lockq == x.lockq
  {
    hide TreeInv, RefInv, HoldInv, LockInv, QueueOk, Waits, Budget, Forget, StillReferenced, SameWords, Deadlocked;
    ForgetKeepsReferenced(x.tree, n, k);
    ForgetWords(x.tree, n, k);
    DeadlockTree(x, Forget(x.tree, n, k), Forsaken(x.tree, n, k));
  }

  lemma DeadlockForget(x: System, id: nat, n: Id, k: nat)
    requires Valid(x) && Deadlocked(x)
    requires Unknown(x, id) && (n != ROOT ==> KernelWaits(x.tree, Queued(id, Forgetting(n, k))))
    requires n != ROOT && !MustWait(x.tree, n, k) ==> MayForgetNow(x, n, k)
    ensures var x' := ForgetNode(x, id, n, k); Deadlocked(x') && x'.lockq[0].id == x.lockq[0].id
  {
    hide Inv, QueueOk, Waits, Budget, Marked, MayForgetNow, Forgotten, KernelWaits;
    if n != ROOT && !MustWait(x.tree, n, k) {
      DeadlockForgotten(x, n, k);
    }
  }

  lemma DeadlockForgetLate(x: System, i: nat)
    requires Valid(x) && Deadlocked(x) && i < |x.lockq| && x.lockq[i].want.Forgetting?
    requires MayForgetNow(x.(lockq := Without(x.lockq, i)), x.lockq[i].want.node, x.lockq[i].want.count)
    ensures var x' := ForgetWoken(x, i); Deadlocked(x') && x'.lockq[0].id == x.lockq[0].id
  {
    hide Inv, QueueOk, Waits, Budget, Marked, MayForgetNow, Forgotten;
    Dequeue(x, i);
    DeadlockForgotten(x.(lockq := Without(x.lockq, i)), x.lockq[i].want.node, x.lockq[i].want.count);
  }

  lemma DeadlockOnTree(x: System, step: NodeRuns.Step)
    requires Valid(x) && Deadlocked(x) && OnTree(step) && NodeRuns.Enabled(x.tree, step)
    ensures var x' := OnTheTree(x, step); Deadlocked(x') && x'.lockq[0].id == x.lockq[0].id
  {
    hide Inv, QueueOk, Waits, Budget, StillReferenced, SameWords, Deadlocked, NodeRuns.Do, NodeRuns.Enabled;
    OnTreeReferenced(x.tree, step);
    OnTreeWords(x.tree, step);
    DeadlockTree(x, NodeRuns.Do(x.tree, step), x.tree);
    NotEmpty(x);
  }

  lemma NotEmpty(x: System)
    requires Deadlocked(x)
    ensures x.lockq != []
  {
  }

  // ------------------------------------------------------------------ runs

  ghost predicate Sparing(x: System, run: seq<Action>)
    requires Valid(x)
    decreases |run|
  {
    run == [] || (Enabled(x, run[0]) && Spares(run[0]) && Sparing(Do(x, run[0]), run[1..]))
  }

  ghost function Play(x: System, run: seq<Action>): (x': System)
    requires Valid(x) && Sparing(x, run)
    ensures Valid(x')
    decreases |run|
  {
    if run == [] then x else Play(Do(x, run[0]), run[1..])
  }

  /** However long the run, the head is never served as long as no allocation fails for it. */
  lemma {:induction false} DeadlockForever(x: System, run: seq<Action>)
    requires Valid(x) && Deadlocked(x) && Sparing(x, run)
    ensures Deadlocked(Play(x, run)) && Play(x, run).lockq != [] && Play(x, run).lockq[0].id == x.lockq[0].id
    decreases |run|
  {
    hide Valid, Deadlocked, Do, Enabled;
    NotEmpty(x);
    if run != [] {
      DeadlockStays(x, run[0]);
      DeadlockForever(Do(x, run[0]), run[1..]);
    }
  }
}
