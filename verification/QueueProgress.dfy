/** Which waiting requests get their paths, told from the lock words and the tree alone. */
module QueueProgress {
  import opened Common
  import opened NodeTree
  import opened NodeSteps
  import opened FuseNodes
  import opened QueueSteps
  import opened QueueRuns

  // ------------------------------------------------------------------ one path

  // The entry that is to be write-locked.
  function Target(s: State, a: Ask): Option<Id> {
    if a.write then Lookup(s, a.dir, Key(a.nm)) else None
  }

  ghost predicate Placed(s: State, a: Ask) {
    TreeInv(s) && a.dir in s.lock
  }

  // The nodes that are to be read-locked: the chain of the directory, without the node it ends in.
  ghost function Climbs(s: State, a: Ask): seq<Id>
    requires Placed(s, a)
  {
    var c := ChainOf(s, a.dir); c[..|c| - 1]
  }

  // The directory is connected to the root.
  ghost predicate Rooted(s: State, a: Ask)
    requires Placed(s, a)
  {
    Last(ChainOf(s, a.dir)) == ROOT
  }

  // Nothing is in the way: the entry is not locked, and no node of the climb is write-locked, awaited by a writer or
  // the entry itself.
  ghost predicate Clear(s: State, a: Ask)
    requires Placed(s, a)
  {
    var w := Target(s, a);
    && (w.Some? ==> w.value in s.lock && s.lock[w.value] == 0)
    && forall n :: n in Climbs(s, a) ==> n in s.lock && s.lock[n] >= 0 && w != Some(n)
  }

  ghost function Verdict(s: State, a: Ask): Err
    requires Placed(s, a)
  {
    if !Clear(s, a) then EAGAIN else if Rooted(s, a) then Ok else ENOENT
  }

  // What an attempt returns, in terms of the lock words.
  lemma TryWords(s: State, t: Token, a: Ask)
    requires Placed(s, a)
    ensures TryPath(s, t, a.dir, Key(a.nm), a.write).1 == Verdict(s, a)
  {
    hide Line, Acyclic;
    var c, w := ChainOf(s, a.dir), Target(s, a);
    if w.Some? {
      LookupLive(s, a.dir, Key(a.nm));
    }
    assert forall k :: 0 <= k < |c| - 1 ==> c[k] == c[..|c| - 1][k];
    assert Blocked(s.lock, c, w) <==>
           exists n :: n in c[..|c| - 1] && (w == Some(n) || s.lock[n] < 0);
  }

  // ------------------------------------------------------------------ two paths

  ghost function After(s: State, t: Token, a: Ask): State
    requires Placed(s, a)
  {
    TryPath(s, t, a.dir, Key(a.nm), a.write).0
  }

  // Neither path takes a lock that the other one needs.
  ghost predicate Apart(s: State, a: Ask, b: Ask)
    requires Placed(s, a) && Placed(s, b)
  {
    var v, w := Target(s, a), Target(s, b);
    && (v.Some? ==> v != w && v.value !in Climbs(s, b))
    && (w.Some? ==> w.value !in Climbs(s, a))
  }

  // A failed attempt at `a` leaves a waiting mark in the way of `b`.
  ghost predicate Crossed(s: State, a: Ask, b: Ask)
    requires Placed(s, a) && Placed(s, b)
  {
    var v := Target(s, a);
    v.Some? && v.value in s.lock && s.lock[v.value] > 0 && v.value in Climbs(s, b)
  }

  // Lock words and holds do not change what a path goes through.
  lemma SamePlace(s: State, s': State, b: Ask)
    requires Placed(s, b) && s' == s.(lock := s'.lock, holds := s'.holds) && s'.lock.Keys == s.lock.Keys
    ensures Placed(s', b) && Climbs(s', b) == Climbs(s, b) && Target(s', b) == Target(s, b)
    ensures Rooted(s', b) <==> Rooted(s, b)
  {
    hide Line, Entries, Acyclic;
  }

  lemma AfterPlace(s: State, t: Token, a: Ask, b: Ask)
    requires Placed(s, a) && Placed(s, b) && t !in s.holds
    ensures var s' := After(s, t, a);
            && Placed(s', b) && Climbs(s', b) == Climbs(s, b) && Target(s', b) == Target(s, b)
            && (Rooted(s', b) <==> Rooted(s, b))
  {
    hide TreeInv;
    TryPathEffect(s, t, a.dir, Key(a.nm), a.write);
    SamePlace(s, After(s, t, a), b);
  }

  // A path that is taken raises the words of its climb and write-locks its entry.
  lemma TakenWords(s: State, t: Token, a: Ask, n: Id)
    requires Placed(s, a) && Clear(s, a) && Rooted(s, a) && n in s.lock
    ensures n in After(s, t, a).lock
    ensures After(s, t, a).lock[n] == if Target(s, a) == Some(n) then WRITE
                                      else if n in Climbs(s, a) then s.lock[n] + 1 else s.lock[n]
  {
    hide Line, Acyclic;
    TryWords(s, t, a);
    var c := ChainOf(s, a.dir);
    assert c == c[..|c| - 1] + [ROOT];
    RootLast(c);
  }

  lemma RootLast(c: seq<Id>)
    requires c != [] && Distinct(c) && Last(c) == ROOT
    ensures ROOT !in c[..|c| - 1]
  {
    assert forall k :: 0 <= k < |c| - 1 ==> c[k] != c[|c| - 1];
  }

  lemma AfterTaken(s: State, t: Token, a: Ask, b: Ask)
    requires Placed(s, a) && Placed(s, b) && t !in s.holds && Clear(s, a) && Rooted(s, a)
    ensures Placed(After(s, t, a), b)
    ensures Clear(After(s, t, a), b) <==> Clear(s, b) && Apart(s, a, b)
  {
    hide After, Climbs, Placed, Rooted;
    AfterPlace(s, t, a, b);
    var s', v, w := After(s, t, a), Target(s, a), Target(s, b);
    forall n | n in s.lock
      ensures n in s'.lock && s'.lock[n] == if v == Some(n) then WRITE
                                            else if n in Climbs(s, a) then s.lock[n] + 1 else s.lock[n]
    {
      TakenWords(s, t, a, n);
    }
    assert s'.lock.Keys == s.lock.Keys by { AfterKeys(s, t, a); }
  }

  lemma AfterKeys(s: State, t: Token, a: Ask)
    requires Placed(s, a) && t !in s.holds
    ensures After(s, t, a).lock.Keys == s.lock.Keys
  {
    hide TreeInv;
    TryPathEffect(s, t, a.dir, Key(a.nm), a.write);
  }

  // A failed attempt marks the entry, if that is read-locked and not yet marked.
  lemma MarkedWords(s: State, t: Token, a: Ask, n: Id)
    requires Placed(s, a) && !Clear(s, a) && n in s.lock
    ensures n in After(s, t, a).lock
    ensures After(s, t, a).lock[n] == if Target(s, a) == Some(n) &&
      s.lock[n] > 0 then s.lock[n] + WAIT_OFFSET else s.lock[n]
  {
    hide Line, Acyclic;
    TryWords(s, t, a);
  }

  lemma AfterMarked(s: State, t: Token, a: Ask, b: Ask)
    requires Inv(s) && Placed(s, a) && Placed(s, b) && t !in s.holds && !Clear(s, a)
    ensures Placed(After(s, t, a), b)
    ensures Clear(After(s, t, a), b) <==> Clear(s, b) && !Crossed(s, a, b)
  {
    hide After, Climbs, Placed, Rooted, TreeInv, RefInv, HoldInv, LockInv;
    AfterPlace(s, t, a, b);
    var s', v, w := After(s, t, a), Target(s, a), Target(s, b);
    forall n | n in s.lock
      ensures n in s'.lock && s'.lock[n] == if v == Some(n) && s.lock[n] > 0 then s.lock[n] + WAIT_OFFSET else s.lock[n]
      ensures s.lock[n] < INT_MAX
    {
      MarkedWords(s, t, a, n);
      LockWord(s.lock, s.holds, n);
    }
    assert s'.lock.Keys == s.lock.Keys by { AfterKeys(s, t, a); }
  }

  // ------------------------------------------------------------------ a turn

  // The attempt runs out of memory.
  ghost predicate NoMemory(s: State, a: Ask, m: Memory) {
    Placed(s, a) && OutOfMemory(s, a.dir, Key(a.nm), a.write, m)
  }

  // The state in which the second path of a request is tried.
  ghost function FirstTried(s: State, e: Elem): State
    requires e.want.Paths? && Placed(s, e.want.first)
  {
    if e.firstLocked then s else After(s, e.T1(), e.want.first)
  }

  lemma FitPlaced(s: State, e: Elem, all: set<Token>)
    requires Fit(s, e, all) && e.want.Paths?
    ensures Inv(s) && Placed(s, e.want.first) && (e.Two() ==> Placed(s, e.want.second.value))
    ensures e.firstLocked <==> e.T1() in s.holds
    ensures e.secondLocked <==> e.T2() in s.holds
  {
    hide TreeInv, RefInv, HoldInv, LockInv, KernelHolds;
    KernelDir(s, e.want.first.dir, Key(e.want.first.nm), e.want.first.write);
    if e.Two() {
      KernelDir(s, e.want.second.value.dir, Key(e.want.second.value.nm), e.want.second.value.write);
    }
  }

  lemma AskWords(s: State, t: Token, a: Ask, m: Memory)
    requires Inv(s) && t !in s.holds && |s.holds| < INT_MAX - 1 && KernelAsks(s, a)
    ensures Placed(s, a)
    ensures TryAsk(s, t, a, m) == if NoMemory(s, a, m) then (s, ENOMEM)
                                  else (After(s, t, a), Verdict(s, a))
  {
    hide TreeInv, RefInv, HoldInv, LockInv, KernelHolds, OutOfMemory, TryPath, Clear, Rooted;
    KernelDir(s, a.dir, Key(a.nm), a.write);
    TryForIs(s, t, a.dir, Key(a.nm), a.write, m);
    TryWords(s, t, a);
  }

  lemma FirstWords(s: State, e: Elem, m: Memory, all: set<Token>)
    requires Fit(s, e, all) && e.want.Paths? && !e.firstLocked
    ensures Placed(s, e.want.first)
    ensures var a, r := e.want.first, First(s, e, m, all);
            if NoMemory(s, a, m) then r.2 == ENOMEM
            else r.0 == After(s, e.T1(), a) && r.2 == Verdict(s, a)
  {
    hide Inv, KernelHolds, TryAsk, NoMemory, Clear, Rooted, After, Placed;
    Room(s.holds, all, e.T1());
    AskWords(s, e.T1(), e.want.first, m);
  }

  lemma SecondWords(s: State, e: Elem, m: Memory, all: set<Token>)
    requires Fit(s, e, all) && e.Two() && !e.secondLocked
    ensures Placed(s, e.want.second.value)
    ensures var a, r := e.want.second.value, Second(s, e, m, all);
            if NoMemory(s, a, m) then r.2 == ENOMEM
            else r.0 == After(s, e.T2(), a) && r.2 == Verdict(s, a)
  {
    hide Inv, KernelHolds, TryAsk, NoMemory, Clear, Rooted, After, Placed;
    Room(s.holds, all, e.T2());
    AskWords(s, e.T2(), e.want.second.value, m);
  }

  // What the attempt at the second path meets, told from the state before the turn.
  lemma SecondAfter(s: State, e: Elem)
    requires Inv(s) && e.Two() && Placed(s, e.want.first) && Placed(s, e.want.second.value)
    requires e.firstLocked <==> e.T1() in s.holds
    ensures var a, b, s1 := e.want.first, e.want.second.value, FirstTried(s, e);
            && Placed(s1, b) && (Rooted(s1, b) <==> Rooted(s, b))
            && (e.firstLocked ==> s1 == s)
            && (!e.firstLocked && Clear(s, a) && Rooted(s, a) ==> (Clear(s1, b) <==> Clear(s, b) && Apart(s, a, b)))
            && (!e.firstLocked && !Clear(s, a) ==> (Clear(s1, b) <==> Clear(s, b) && !Crossed(s, a, b)))
  {
    hide Inv, Placed, After, Clear, Rooted, Apart, Crossed;
    var a, b := e.want.first, e.want.second.value;
    if !e.firstLocked {
      AfterPlace(s, e.T1(), a, b);
      if !Clear(s, a) {
        AfterMarked(s, e.T1(), a, b);
      } else if Rooted(s, a) {
        AfterTaken(s, e.T1(), a, b);
      }
    }
  }

  /** A turn serves the request iff for each path it lacks there is memory, nothing is in the way, and the directory is
      connected to the root; and, if it lacks both, neither path takes a lock that the other one needs. */
  lemma ServedIff(s: State, e: Elem, head: bool, luck: Luck, all: set<Token>)
    requires Fit(s, e, all) && Settled(e) && e.want.Paths?
    ensures Placed(s, e.want.first) && (e.Two() ==> Placed(s, e.want.second.value))
    ensures var r, a := Wake(s, e, head, luck, all).1, e.want.first;
            r.done && r.err == Ok <==>
            && (!e.firstLocked ==> !NoMemory(s, a, luck.first) && Clear(s, a) && Rooted(s, a))
            && (e.Two() && !e.secondLocked ==>
                  var b := e.want.second.value;
                  && !NoMemory(FirstTried(s, e), b, luck.second) && Clear(s, b) && Rooted(s, b)
                  && (!e.firstLocked ==> Apart(s, a, b)))
  {
    hide Fit, First, Second, GiveBack, Placed, Clear, Rooted, Apart, Crossed, NoMemory, After, Inv;
    FitPlaced(s, e, all);
    var (s1, e1, err1) := First(s, e, luck.first, all);
    if !e.firstLocked {
      FirstWords(s, e, luck.first, all);
    }
    if !Hard(err1) && e.Two() && !e.secondLocked {
      SecondWords(s1, e1, luck.second, all);
      SecondAfter(s, e);
    }
  }

  // The request holds its first path after the attempt, and cannot have its second one now.
  ghost predicate FirstOnly(s: State, e: Elem)
    requires e.Two() && Placed(s, e.want.first) && Placed(s, e.want.second.value)
  {
    var a, b := e.want.first, e.want.second.value;
    && (e.firstLocked || (Clear(s, a) && Rooted(s, a)))
    && !e.secondLocked && !(Clear(s, b) && (e.firstLocked || Apart(s, a, b)))
  }

  // The other way round; the failed attempt at the first path may have marked a node of the second.
  ghost predicate SecondOnly(s: State, e: Elem)
    requires e.Two() && Placed(s, e.want.first) && Placed(s, e.want.second.value)
  {
    var a, b := e.want.first, e.want.second.value;
    && !e.firstLocked && !Clear(s, a)
    && (e.secondLocked || (Clear(s, b) && Rooted(s, b) && !Crossed(s, a, b)))
  }

  /** A request that was done with an error and has another turn ends it holding a path, still with its error, iff it is
      at the head, asked for two paths, does not run out of memory, and can have exactly one of them now. */
  lemma WakeLeaks(s: State, e: Elem, head: bool, luck: Luck, all: set<Token>)
    requires Fit(s, e, all) && Settled(e) && e.done && e.err != Ok
    ensures e.want.Paths? && Placed(s, e.want.first) && (e.Two() ==> Placed(s, e.want.second.value))
    ensures var r := Wake(s, e, head, luck, all).1;
            && r.done
            && (r.err != Ok && !r.Empty() <==>
                && head && e.Two() && (FirstOnly(s, e) || SecondOnly(s, e))
                && (e.firstLocked || !NoMemory(s, e.want.first, luck.first))
                && (e.secondLocked || !NoMemory(FirstTried(s, e), e.want.second.value, luck.second)))
  {
    hide Fit, First, Second, GiveBack, Placed, Clear, Rooted, Apart, Crossed, NoMemory, After, Inv;
    FitPlaced(s, e, all);
    var (s1, e1, err1) := First(s, e, luck.first, all);
    if !e.firstLocked {
      FirstWords(s, e, luck.first, all);
    }
    if !Hard(err1) && e.Two() && !e.secondLocked {
      SecondWords(s1, e1, luck.second, all);
      SecondAfter(s, e);
    }
  }

  // ------------------------------------------------------------------ when only the queue holds paths

  // Every path is held by a queued request, and none of these is done.
  ghost predicate Quiet(x: System) {
    && (forall t :: t in x.tree.holds ==> exists i :: 0 <= i < |x.lockq| && x.lockq[i].id == t.request)
    && (forall i :: 0 <= i < |x.lockq| ==> !x.lockq[i].done)
  }

  // Then there is at most one held path, and it is the head's.
  lemma QuietHolds(x: System)
    requires Valid(x) && Quiet(x) && x.lockq != []
    ensures var e := x.lockq[0];
            && (e.firstLocked ==> x.tree.holds.Keys == {e.T1()} && e.Two() && !e.secondLocked)
            && (e.secondLocked ==> x.tree.holds.Keys == {e.T2()} && e.Two() && !e.firstLocked)
            && (e.Empty() ==> x.tree.holds.Keys == {})
  {
    hide Inv, Waits, Budget;
    var e := x.lockq[0];
    forall t | t in x.tree.holds
      ensures t == e.T1() || t == e.T2()
    {
      var i :| 0 <= i < |x.lockq| && x.lockq[i].id == t.request;
      assert ElemOk(x.lockq[i], x.tree.holds) && Settled(x.lockq[i]);
      assert t == x.lockq[i].T1() || t == x.lockq[i].T2();
    }
    assert ElemOk(e, x.tree.holds) && Settled(e);
  }

  // The words when nothing is held.
  lemma IdleWord(s: State, n: Id)
    requires LockInv(s.lock, s.holds) && s.holds.Keys == {} && n in s.lock
    ensures s.lock[n] == 0
  {
    assert Readers(s.holds, n) == {} && Writers(s.holds, n) == {};
  }

  // The words when one path is held.
  lemma AloneWord(s: State, t: Token, n: Id)
    requires LockInv(s.lock, s.holds) && s.holds.Keys == {t} && n in s.lock
    ensures Writes(s.holds[t], n) ==> s.lock[n] == WRITE
    ensures !Writes(s.holds[t], n) && Reads(s.holds[t], n) ==> s.lock[n] == 1 || s.lock[n] == WAIT_OFFSET + 1
    ensures !Writes(s.holds[t], n) && !Reads(s.holds[t], n) ==> s.lock[n] == 0
  {
    assert Readers(s.holds, n) == if Reads(s.holds[t], n) then {t} else {};
    assert Writers(s.holds, n) == if Writes(s.holds[t], n) then {t} else {};
  }

  // An entry is not above its own directory.
  lemma TargetOff(s: State, a: Ask)
    requires Placed(s, a) && Target(s, a).Some?
    ensures Target(s, a).value !in Climbs(s, a) && Target(s, a).value in s.lock && Target(s, a).value != ROOT
  {
    LookupLive(s, a.dir, Key(a.nm));
    var w, c := Target(s, a).value, ChainOf(s, a.dir);
    assert s.parent[w] == a.dir;
    forall k | 0 <= k < |c|
      ensures c[k] != w
    {
      LineSuffix(s.parent, a.dir, c, k);
    }
  }

  // What a held path goes through.
  lemma HeldPlace(s: State, t: Token, a: Ask)
    requires Inv(s) && Placed(s, a) && t in s.holds && s.holds[t].dir == a.dir
    ensures Rooted(s, a) && forall n :: n in Climbs(s, a) <==> Reads(s.holds[t], n)
  {
    hide Entries, Acyclic, Conserved, LockInv;
    assert HoldOk(s.parent, s.nlookup, s.holds[t]);
    var c := ChainOf(s, a.dir);
    LineUnique(s.parent, a.dir, c, s.holds[t].line);
    RootLast(c);
    assert c == c[..|c| - 1] + [ROOT];
  }

  lemma ClimbsLive(s: State, a: Ask)
    requires Placed(s, a)
    ensures forall n :: n in Climbs(s, a) ==> n in s.lock
  {
    hide Line, Entries, Acyclic;
  }

  // With one path held, another one is clear iff neither takes a lock the other needs and no node of both is awaited.
  lemma ClearBeside(s: State, t: Token, a: Ask, b: Ask)
    requires Inv(s) && Placed(s, a) && Placed(s, b) && s.holds.Keys == {t} && s.holds[t].dir == a.dir
    ensures var v, w := s.holds[t].wnode, Target(s, b);
            Clear(s, b) <==>
            && (v.Some? ==> v != w && v.value !in Climbs(s, b))
            && (w.Some? ==> w.value !in Climbs(s, a))
            && !(exists n :: n in Climbs(s, a) && n in Climbs(s, b) && n in s.lock && s.lock[n] < 0)
  {
    hide TreeInv, RefInv, HoldInv, LockInv, Placed, Climbs, Rooted;
    HeldPlace(s, t, a);
    ClimbsLive(s, b);
    if Target(s, b).Some? {
      TargetOff(s, b);
    }
    forall n | n in s.lock
      ensures Writes(s.holds[t], n) ==> s.lock[n] == WRITE
      ensures !Writes(s.holds[t], n) && Reads(s.holds[t], n) ==> s.lock[n] == 1 || s.lock[n] == WAIT_OFFSET + 1
      ensures !Writes(s.holds[t], n) && !Reads(s.holds[t], n) ==> s.lock[n] == 0
    {
      AloneWord(s, t, n);
    }
    if s.holds[t].wnode.Some? {
      HeldEntryOff(s, t);
    }
  }

  lemma HeldEntryOff(s: State, t: Token)
    requires Inv(s) && t in s.holds && s.holds[t].wnode.Some?
    ensures s.holds[t].wnode.value in s.lock && !Reads(s.holds[t], s.holds[t].wnode.value)
  {
    hide TreeInv, RefInv, HoldInv, LockInv;
    WriteHeldOutside(s, t, s.holds[t].wnode.value);
  }

  lemma ClearIdle(s: State, a: Ask)
    requires Inv(s) && Placed(s, a) && s.holds.Keys == {}
    ensures Clear(s, a)
  {
    hide TreeInv, RefInv, HoldInv, Placed, Climbs, Rooted;
    ClimbsLive(s, a);
    if Target(s, a).Some? {
      TargetOff(s, a);
    }
    forall n | n in s.lock
      ensures s.lock[n] == 0
    {
      IdleWord(s, n);
    }
  }

  // The entry a path write-locks: the one it holds, or the one it would take.
  ghost function Taking(s: State, t: Token, a: Ask): Option<Id> {
    if t in s.holds then s.holds[t].wnode else Target(s, a)
  }

  // Neither path of the request takes a lock that the other one needs.
  ghost predicate Compatible(s: State, e: Elem)
    requires e.Two() && Placed(s, e.want.first) && Placed(s, e.want.second.value)
  {
    var a, b := e.want.first, e.want.second.value;
    var v, w := Taking(s, e.T1(), a), Taking(s, e.T2(), b);
    && (v.Some? ==> v != w && v.value !in Climbs(s, b))
    && (w.Some? ==> w.value !in Climbs(s, a))
  }

  // A writer waits for a node that both paths go through.
  ghost predicate Awaited(s: State, e: Elem)
    requires e.Two() && Placed(s, e.want.first) && Placed(s, e.want.second.value)
  {
    exists n :: n in Climbs(s, e.want.first) && n in Climbs(s, e.want.second.value) && n in s.lock && s.lock[n] < 0
  }

  /** When only the queue holds paths and nobody in it is done, a wake-up in which no allocation fails serves the head
      iff its directories are connected to the root, its two paths take no lock that the other one needs, and no
      writer waits for a node that both go through.  The last can fail only for a head that holds one of them. */
  lemma HeadServedIff(x: System)
    requires Valid(x) && Quiet(x) && x.lockq != [] && x.lockq[0].want.Paths?
    ensures var s, e := x.tree, x.lockq[0];
            && Fit(s, e, x.all) && Settled(e) && Placed(s, e.want.first) && (e.Two() ==> Placed(s, e.want.second.value))
            && (e.Two() && e.Empty() ==> !Awaited(s, e))
    ensures var s, e := x.tree, x.lockq[0];
            var r := Wake(s, e, true, Luck(Enough, Enough), x.all).1;
            r.done && r.err == Ok <==>
            && Rooted(s, e.want.first)
            && (e.Two() ==> Rooted(s, e.want.second.value) && Compatible(s, e) && !Awaited(s, e))
  {
    hide Inv, QueueOk, Waits, Budget, Fit, Wake, Placed, Clear, Rooted, Climbs, Target, NoMemory;
    var s, e := x.tree, x.lockq[0];
    QuietHolds(x);
    FitAt(x, 0);
    FitPlaced(s, e, x.all);
    ServedIff(s, e, true, Luck(Enough, Enough), x.all);
    EnoughMemory(s, e.want.first);
    if e.Two() {
      EnoughMemory(FirstTried(s, e), e.want.second.value);
    }
    HeadElem(x);
    if e.Empty() {
      ClearIdle(s, e.want.first);
      if e.Two() {
        ClearIdle(s, e.want.second.value);
        IdleAwaits(s, e);
      }
    } else if e.firstLocked {
      HeldPlace(s, e.T1(), e.want.first);
      ClearBeside(s, e.T1(), e.want.first, e.want.second.value);
    } else {
      HeldPlace(s, e.T2(), e.want.second.value);
      ClearBeside(s, e.T2(), e.want.second.value, e.want.first);
    }
  }

  lemma IdleAwaits(s: State, e: Elem)
    requires LockInv(s.lock, s.holds) && s.holds.Keys == {} && e.Two()
    requires Placed(s, e.want.first) && Placed(s, e.want.second.value)
    ensures !Awaited(s, e)
  {
    hide Placed, Climbs;
    forall n | n in s.lock
      ensures s.lock[n] == 0
    {
      IdleWord(s, n);
    }
  }

  lemma EnoughMemory(s: State, a: Ask)
    ensures !NoMemory(s, a, Enough)
  {
    hide TreeInv;
  }

  lemma HeadElem(x: System)
    requires Valid(x) && x.lockq != []
    ensures var e := x.lockq[0];
            && Inv(x.tree) && LockInv(x.tree.lock, x.tree.holds)
            && (e.firstLocked ==> e.T1() in x.tree.holds && x.tree.holds[e.T1()].dir == e.want.first.dir)
            && (e.secondLocked ==>
                  e.T2() in x.tree.holds && e.Two() && x.tree.holds[e.T2()].dir == e.want.second.value.dir)
  {
    hide TreeInv, RefInv, HoldInv, LockInv, Waits, Budget;
    assert ElemOk(x.lockq[0], x.tree.holds);
  }

  // The head has its turn first; the turns of the others do not change it.
  lemma HeadTurn(x: System, luck: nat -> Luck)
    requires Valid(x) && x.lockq != []
    ensures Fit(x.tree, x.lockq[0], x.all) && Settled(x.lockq[0])
    ensures |WakeAll(x, 0, luck).lockq| == |x.lockq|
    ensures WakeAll(x, 0, luck).lockq[0] == Wake(x.tree, x.lockq[0], true, luck(0), x.all).1
  {
    hide Valid, Fit, Settled, Wake;
    FitAt(x, 0);
    KeptSize(x, WakeAll(x, 0, luck));
    var y := Turn(x, 0, luck(0));
    KeptSize(x, y);
    HeadKept(y, 1, luck);
  }

  lemma {:induction false} HeadKept(x: System, i: nat, luck: nat -> Luck)
    requires Valid(x) && 0 < i <= |x.lockq|
    ensures |WakeAll(x, i, luck).lockq| == |x.lockq| && WakeAll(x, i, luck).lockq[0] == x.lockq[0]
    decreases |x.lockq| - i
  {
    hide Valid, Fit, Settled, Wake;
    KeptSize(x, WakeAll(x, i, luck));
    if i < |x.lockq| {
      var y := Turn(x, i, luck(i));
      KeptSize(x, y);
      HeadKept(y, i + 1, luck);
    }
  }
}
