/** Every waiting request has its turn, how a turn ends, and what is left waiting afterwards. */
module QueueTurns {
  import opened Common
  import opened NodeTree
  import opened NodeSteps
  import opened FuseNodes
  import opened QueueSteps
  import opened QueueRuns
  import opened QueueProgress
  import opened QueueDeadlock
  import NodeRuns

  // ------------------------------------------------------------------ every request has its turn

  lemma TurnChanges(x: System, i: nat, luck: Luck)
    requires Valid(x) && i < |x.lockq|
    ensures Fit(x.tree, x.lockq[i], x.all) && Settled(x.lockq[i])
    ensures var y := Turn(x, i, luck);
            && |y.lockq| == |x.lockq| && (forall j :: 0 <= j < |x.lockq| && j != i ==> y.lockq[j] == x.lockq[j])
            && (y.tree, y.lockq[i]) == Wake(x.tree, x.lockq[i], i == 0, luck, x.all) && y.all == x.all
  {
    hide Valid, Fit, Wake, Settled;
    FitAt(x, i);
  }

  // The turns of the elements behind it leave an element alone.
  lemma {:induction false} LaterKept(x: System, j: nat, i: nat, luck: nat -> Luck)
    requires Valid(x) && i < j <= |x.lockq|
    ensures |WakeAll(x, j, luck).lockq| == |x.lockq| && WakeAll(x, j, luck).lockq[i] == x.lockq[i]
    decreases |x.lockq| - j
  {
    hide Valid, Turn, Fit, Wake;
    if j < |x.lockq| {
      TurnChanges(x, j, luck(j));
      LaterKept(Turn(x, j, luck(j)), j + 1, i, luck);
    }
  }

  // The state in which element `i` has its turn, when the turns start with element `j`.
  ghost function AtTurn(x: System, j: nat, i: nat, luck: nat -> Luck): (y: System)
    requires Valid(x) && j <= i < |x.lockq|
    ensures Valid(y) && Kept(x, y)
    decreases i - j
  {
    hide Valid, Turn, Kept;
    if j == i then
      KeptRefl(x);
      x
    else
      var z := Turn(x, j, luck(j));
      KeptSize(x, z);
      var y := AtTurn(z, j + 1, i, luck);
      KeptTrans(x, z, y);
      y
  }

  /** In a wake-up every element has its turn, in a state that differs from the first one only in lock words and
      paths and in the elements before it; and it ends the wake-up as its turn has left it. */
  lemma {:induction false} EveryTurn(x: System, j: nat, i: nat, luck: nat -> Luck)
    requires Valid(x) && j <= i < |x.lockq|
    ensures var y := AtTurn(x, j, i, luck);
            && |y.lockq| == |x.lockq| && y.lockq[i] == x.lockq[i] && y.all == x.all
            && Fit(y.tree, x.lockq[i], x.all) && Settled(x.lockq[i])
            && WakeAll(x, j, luck) == WakeAll(Turn(y, i, luck(i)), i + 1, luck)
            && |WakeAll(x, j, luck).lockq| == |x.lockq|
            && WakeAll(x, j, luck).lockq[i] == Wake(y.tree, x.lockq[i], i == 0, luck(i), x.all).1
    decreases i - j
  {
    hide Valid, Turn, Fit, Wake, Settled, Kept;
    TurnChanges(x, j, luck(j));
    var z := Turn(x, j, luck(j));
    if j == i {
      LaterKept(z, i + 1, i, luck);
    } else {
      EveryTurn(z, j + 1, i, luck);
    }
  }

  // ------------------------------------------------------------------ how a turn ends

  /** A turn ends in one of four ways: a path it lacks cannot be had for want of memory or because its directory
      is cut off, and then the request is done with that error and holds nothing; it has all its paths and is
      done; or it goes on waiting as it was, holding one of two paths if it is the head. */
  lemma WakeOutcome(s: State, e: Elem, head: bool, luck: Luck, all: set<Token>)
    requires Fit(s, e, all) && Settled(e) && e.want.Paths?
    ensures Placed(s, e.want.first) && (e.Two() ==> Placed(FirstTried(s, e), e.want.second.value))
    ensures var r, a := Wake(s, e, head, luck, all).1, e.want.first;
            var err1 := if e.firstLocked then Ok else if NoMemory(s, a, luck.first) then ENOMEM else Verdict(s, a);
            var err2 := if !e.Two() || e.secondLocked then Ok
                        else if NoMemory(FirstTried(s, e), e.want.second.value, luck.second) then ENOMEM
                        else Verdict(FirstTried(s, e), e.want.second.value);
            var err := if Hard(err1) then err1 else err2;
            && (Hard(err) ==> r.done && r.err == err && r.Empty())
            && (!Hard(err) && err1 == Ok && err2 == Ok ==> r.done && r.err == Ok && r.Full())
            && (!Hard(err) && !(err1 == Ok && err2 == Ok) ==>
                  && r.done == e.done && r.err == e.err
                  && r.firstLocked == (head && err1 == Ok) && r.secondLocked == (head && e.Two() && err2 == Ok))
  {
    hide Fit, First, Second, GiveBack, Placed, Clear, Rooted, NoMemory, After, Inv, Verdict;
    FitPlaced(s, e, all);
    var (s1, e1, err1) := First(s, e, luck.first, all);
    if !e.firstLocked {
      FirstVerdict(s, e, luck.first, all);
    }
    if e.Two() {
      SecondAfter(s, e);
      if !Hard(err1) && !e.secondLocked {
        SecondVerdict(s1, e1, luck.second, all);
      }
    }
  }

  lemma FirstVerdict(s: State, e: Elem, m: Memory, all: set<Token>)
    requires Fit(s, e, all) && e.want.Paths? && !e.firstLocked
    ensures Placed(s, e.want.first)
    ensures var a, r := e.want.first, First(s, e, m, all);
            && r.2 == (if NoMemory(s, a, m) then ENOMEM else Verdict(s, a))
            && (!NoMemory(s, a, m) ==> r.0 == After(s, e.T1(), a))
  {
    hide Fit, First, Placed, NoMemory, After, Verdict;
    FirstWords(s, e, m, all);
  }

  lemma SecondVerdict(s: State, e: Elem, m: Memory, all: set<Token>)
    requires Fit(s, e, all) && e.Two() && !e.secondLocked
    ensures Placed(s, e.want.second.value)
    ensures var a := e.want.second.value;
            Second(s, e, m, all).2 == if NoMemory(s, a, m) then ENOMEM else Verdict(s, a)
  {
    hide Fit, Second, Placed, NoMemory, After, Verdict;
    SecondWords(s, e, m, all);
  }

  // ------------------------------------------------------------------ who is left waiting

  // What is locked stays locked, and what is write-locked or awaited stays so.
  ghost predicate Harder(s: State, s': State) {
    forall n :: n in s.lock ==>
      n in s'.lock && (s.lock[n] != 0 ==> s'.lock[n] != 0) && (s.lock[n] < 0 ==> s'.lock[n] < 0)
  }

  lemma HarderTrans(s: State, s': State, s'': State)
    requires Harder(s, s') && Harder(s', s'')
    ensures Harder(s, s'')
  {
  }

  lemma HarderClear(s: State, s': State, a: Ask)
    requires Placed(s, a) && s' == s.(lock := s'.lock, holds := s'.holds) && s'.lock.Keys == s.lock.Keys
    requires Harder(s, s') && !Clear(s, a)
    ensures Placed(s', a) && !Clear(s', a)
  {
    hide Placed, Climbs, Rooted;
    SamePlace(s, s', a);
    ClimbsLive(s, a);
    if Target(s, a).Some? {
      TargetOff(s, a);
    }
  }

  // A turn of a request that holds all its paths or none takes no lock away from anybody.
  lemma WakeHarder(s: State, e: Elem, head: bool, luck: Luck, all: set<Token>)
    requires Fit(s, e, all) && Settled(e) && (e.Full() || e.Empty())
    ensures Harder(s, Wake(s, e, head, luck, all).0)
  {
    hide Fit, Wake, Settled;
    var s' := Wake(s, e, head, luck, all).0;
    if e.Full() {
      FullStays(s, e, head, luck, all);
    } else {
      forall n | n in s.lock
        ensures n in s'.lock && (s.lock[n] != 0 ==> s'.lock[n] != 0) && (s.lock[n] < 0 ==> s'.lock[n] < 0)
      {
        WordHarder(s, e, head, luck, all, n);
      }
    }
  }

  lemma FullStays(s: State, e: Elem, head: bool, luck: Luck, all: set<Token>)
    requires Fit(s, e, all) && Settled(e) && e.Full()
    ensures Wake(s, e, head, luck, all).0 == s
  {
    hide Fit, First, Second, GiveBack, Frame;
  }

  lemma WordHarder(s: State, e: Elem, head: bool, luck: Luck, all: set<Token>, n: Id)
    requires Fit(s, e, all) && Settled(e) && e.Empty() && n in s.lock
    ensures var s' := Wake(s, e, head, luck, all).0;
            n in s'.lock && (s.lock[n] != 0 ==> s'.lock[n] != 0) && (s.lock[n] < 0 ==> s'.lock[n] < 0)
  {
    hide Inv, Wake, KernelWaits, Budget;
    var s' := Wake(s, e, head, luck, all).0;
    InvLocks(s);
    InvLocks(s');
    LockWord(s.lock, s.holds, n);
    LockWord(s'.lock, s'.holds, n);
    if t0 :| t0 in Writers(s.holds, n) {
      OtherToken(s, e, t0);
      assert t0 in Writers(s'.holds, n);
    } else if t0 :| t0 in Readers(s.holds, n) {
      OtherToken(s, e, t0);
      assert t0 in Readers(s'.holds, n);
      if s.lock[n] < 0 {
        WakeKeepsMark(s, t0, n, e, head, luck, all);
      }
    }
  }

  lemma InvLocks(s: State)
    requires Inv(s)
    ensures LockInv(s.lock, s.holds)
  {
    hide TreeInv, RefInv, HoldInv, LockInv;
  }

  lemma OtherToken(s: State, e: Elem, t: Token)
    requires ElemOk(e, s.holds) && e.Empty() && t in s.holds
    ensures t.request != e.id
  {
    assert t == Token(t.request, t.second);
  }

  lemma ElemWhole(x: System, i: nat)
    requires Valid(x) && i < |x.lockq| && (i > 0 || !x.lockq[i].Two())
    ensures x.lockq[i].Full() || x.lockq[i].Empty()
  {
    hide Inv, Waits, Budget;
    assert ElemOk(x.lockq[i], x.tree.holds);
  }

  lemma {:induction false} WakeAllHarder(x: System, j: nat, luck: nat -> Luck)
    requires Valid(x) && 0 < j <= |x.lockq|
    ensures Harder(x.tree, WakeAll(x, j, luck).tree)
    decreases |x.lockq| - j
  {
    hide Valid, Turn, Fit, Wake, Settled, Kept;
    if j < |x.lockq| {
      TurnChanges(x, j, luck(j));
      ElemWhole(x, j);
      WakeHarder(x.tree, x.lockq[j], false, luck(j), x.all);
      var y := Turn(x, j, luck(j));
      hide Harder;
      WakeAllHarder(y, j + 1, luck);
      HarderTrans(x.tree, y.tree, WakeAll(y, j + 1, luck).tree);
    }
  }

  /** After a wake-up, a request for one path that had memory and is not done has something in its way, in the
      state after the wake-up. */
  lemma {:induction false} WaiterBlocked(x: System, i: nat, luck: nat -> Luck)
    requires Valid(x) && i < |x.lockq| && x.lockq[i].want.Paths? && !x.lockq[i].Two() && luck(i).first == Enough
    ensures var x' := WakeAll(x, 0, luck);
            && |x'.lockq| == |x.lockq| && Placed(x'.tree, x.lockq[i].want.first)
            && (!x'.lockq[i].done ==> !Clear(x'.tree, x.lockq[i].want.first))
  {
    hide Valid, Turn, Fit, Wake, Settled, Kept, Placed, Clear, Rooted, NoMemory, Harder, Inv;
    var e, x' := x.lockq[i], WakeAll(x, 0, luck);
    EveryTurn(x, 0, i, luck);
    var y := AtTurn(x, 0, i, luck);
    FitPlaced(y.tree, e, x.all);
    EnoughMemory(y.tree, e.want.first);
    WakeOutcome(y.tree, e, i == 0, luck(i), x.all);
    TurnChanges(y, i, luck(i));
    ElemWhole(y, i);
    WakeHarder(y.tree, e, i == 0, luck(i), x.all);
    var z := Turn(y, i, luck(i));
    WakeAllHarder(z, i + 1, luck);
    HarderTrans(y.tree, z.tree, x'.tree);
    KeptTree(y, z);
    KeptTree(z, x');
    SamePlace(y.tree, x'.tree, e.want.first);
    if !Clear(y.tree, e.want.first) {
      HarderClear(y.tree, x'.tree, e.want.first);
    }
  }

  lemma KeptTree(x: System, y: System)
    requires Kept(x, y)
    ensures y.tree == x.tree.(lock := y.tree.lock, holds := y.tree.holds) && y.tree.lock.Keys == x.tree.lock.Keys
  {
  }

  // ------------------------------------------------------------------ what a first attempt returns

  // `get_path_common` gets its path at once iff there is memory, nothing is in the way and the directory is connected.
  lemma GetIff(x: System, id: nat, a: Ask, m: Memory)
    requires Valid(x) && Unknown(x, id) && Posed(a) && KernelAsks(x.tree, a)
    ensures Placed(x.tree, a)
    ensures GetError(x, id, a, m) == if NoMemory(x.tree, a, m) then ENOMEM else Verdict(x.tree, a)
  {
    hide Inv, QueueOk, Waits, Budget, TryAsk, KernelHolds, Placed, Clear, Rooted, After, NoMemory;
    UnknownIds(x, id);
    AskWords(x.tree, Token(id, false), a, m);
  }

  /** `get_path2` gets its paths at once iff for both there is memory, nothing is in the way and the directories are
      connected, and neither takes a lock that the other one needs. */
  lemma BothIff(s: State, t1: Token, a: Ask, t2: Token, b: Ask, luck: Luck)
    requires Inv(s) && t1 !in s.holds && t2 !in s.holds && t1 != t2 && |s.holds| < INT_MAX - 2
    requires KernelAsks(s, a) && KernelAsks(s, b)
    ensures Placed(s, a) && Placed(s, b)
    ensures TryBoth(s, t1, a.dir, Key(a.nm), a.write, t2, b.dir, Key(b.nm), b.write, luck).1 == Ok <==>
            && !NoMemory(s, a, luck.first) && Clear(s, a) && Rooted(s, a)
            && !NoMemory(After(s, t1, a), b, luck.second) && Clear(s, b) && Rooted(s, b) && Apart(s, a, b)
  {
    hide Inv, TryBoth, TryAsk, KernelHolds, Placed, Clear, Rooted, After, NoMemory, Apart, Verdict;
    AskWords(s, t1, a, luck.first);
    KernelPlaced(s, b);
    VerdictOk(s, a);
    BothUnfold(s, t1, a, t2, b, luck);
    if !NoMemory(s, a, luck.first) && Clear(s, a) && Rooted(s, a) {
      SecondIff(s, t1, a, t2, b, luck.second);
    }
  }

  // Both paths are had if the first one is, and then the second one.
  lemma BothUnfold(s: State, t1: Token, a: Ask, t2: Token, b: Ask, luck: Luck)
    requires Inv(s) && t1 !in s.holds && t2 !in s.holds && t1 != t2 && |s.holds| < INT_MAX - 2
    requires KernelAsks(s, a) && KernelAsks(s, b)
    ensures var (s1, err1) := TryAsk(s, t1, a, luck.first);
            && (err1 == Ok ==> Inv(s1) && t2 !in s1.holds && |s1.holds| < INT_MAX - 1 && KernelAsks(s1, b))
            && (TryBoth(s, t1, a.dir, Key(a.nm), a.write, t2, b.dir, Key(b.nm), b.write, luck).1 == Ok <==>
                err1 == Ok && TryAsk(s1, t2, b, luck.second).1 == Ok)
  {
    hide Inv, TryFor, Tried, KernelHolds, Release;
    var (s1, err1) := TryAsk(s, t1, a, luck.first);
    if err1 == Ok {
      TriedNext(s, s1, t1, a.dir, b.dir, Key(b.nm), b.write);
    }
  }

  lemma VerdictOk(s: State, a: Ask)
    requires Placed(s, a)
    ensures Verdict(s, a) == Ok <==> Clear(s, a) && Rooted(s, a)
  {
    hide Placed, Clear, Rooted;
  }

  // The second attempt, with the first path held.
  lemma SecondIff(s: State, t1: Token, a: Ask, t2: Token, b: Ask, m: Memory)
    requires Placed(s, a) && Placed(s, b) && t1 !in s.holds && Clear(s, a) && Rooted(s, a)
    requires Inv(After(s, t1, a)) && t2 !in After(s, t1, a).holds && |After(s, t1, a).holds| < INT_MAX - 1
    requires KernelAsks(After(s, t1, a), b)
    ensures Placed(After(s, t1, a), b)
    ensures TryAsk(After(s, t1, a), t2, b, m).1 == Ok <==>
            !NoMemory(After(s, t1, a), b, m) && Clear(s, b) && Rooted(s, b) && Apart(s, a, b)
  {
    hide Inv, TryAsk, KernelHolds, Placed, Clear, Rooted, After, NoMemory, Apart, Verdict;
    AfterPlace(s, t1, a, b);
    AfterTaken(s, t1, a, b);
    AskWords(After(s, t1, a), t2, b, m);
    VerdictOk(After(s, t1, a), b);
  }

  lemma KernelPlaced(s: State, b: Ask)
    requires Inv(s) && KernelAsks(s, b)
    ensures Placed(s, b)
  {
    hide TreeInv, RefInv, HoldInv, LockInv, KernelHolds;
    KernelDir(s, b.dir, Key(b.nm), b.write);
  }

  lemma Get2Iff(x: System, id: nat, a: Ask, b: Ask, luck: Luck)
    requires Valid(x) && Unknown(x, id) && KernelAsks(x.tree, a) && KernelAsks(x.tree, b)
    ensures Placed(x.tree, a) && Placed(x.tree, b)
    ensures GetError2(x, id, a, b, luck) == Ok <==>
            && !NoMemory(x.tree, a, luck.first) && Clear(x.tree, a) && Rooted(x.tree, a)
            && !NoMemory(After(x.tree, Token(id, false), a), b, luck.second)
            && Clear(x.tree, b) && Rooted(x.tree, b) && Apart(x.tree, a, b)
  {
    hide Inv, QueueOk, Waits, Budget, TryBoth, KernelHolds, Placed, Clear, Rooted, After, NoMemory, Apart;
    UnknownIds(x, id);
    BothIff(x.tree, Token(id, false), a, Token(id, true), b, luck);
  }

  // ------------------------------------------------------------------ giving back and forgetting

  /** Giving back one path, or two, gives every waiting request its turn: a request for one path that had memory
      and is not done afterwards still has something in its way. */
  lemma FreeWakes(x: System, id: nat, luck: nat -> Luck, i: nat)
    requires Valid(x) && NotWaiting(x.lockq, id) && Token(id, false) in x.tree.holds && i < |x.lockq|
    requires x.lockq[i].want.Paths? && !x.lockq[i].Two() && luck(i).first == Enough
    ensures var x' := if Token(id, true) in x.tree.holds then FreePath2(x, id, luck) else FreePath(x, id, luck);
            && |x'.lockq| == |x.lockq| && Placed(x'.tree, x.lockq[i].want.first)
            && Token(id, false) !in x'.tree.holds && Token(id, true) !in x'.tree.holds
            && (!x'.lockq[i].done ==> !Clear(x'.tree, x.lockq[i].want.first))
  {
    hide Inv, QueueOk, Waits, Budget, WakeAll, Placed, Clear, Release;
    var y := if Token(id, true) in x.tree.holds then GivenUp2(x, id) else GivenUp(x, id);
    GivenAway(x, id);
    WaiterBlocked(y, i, luck);
    StillGone(y, 0, id, luck);
  }

  lemma GivenAway(x: System, id: nat)
    requires Valid(x) && NotWaiting(x.lockq, id) && Token(id, false) in x.tree.holds
    ensures var y := if Token(id, true) in x.tree.holds then GivenUp2(x, id) else GivenUp(x, id);
            && y.lockq == x.lockq && Token(id, false) !in y.tree.holds && Token(id, true) !in y.tree.holds
  {
    hide Inv, QueueOk, Waits, Budget, Freed;
  }

  // Turns give paths only to the requests in the queue.
  lemma {:induction false} StillGone(x: System, j: nat, id: nat, luck: nat -> Luck)
    requires Valid(x) && j <= |x.lockq| && NotWaiting(x.lockq, id)
    requires Token(id, false) !in x.tree.holds && Token(id, true) !in x.tree.holds
    ensures var x' := WakeAll(x, j, luck); Token(id, false) !in x'.tree.holds && Token(id, true) !in x'.tree.holds
    decreases |x.lockq| - j
  {
    hide Valid, Turn, Fit, Wake, Settled;
    if j < |x.lockq| {
      TurnChanges(x, j, luck(j));
      var y := Turn(x, j, luck(j));
      assert Frame(x.tree, y.tree, x.lockq[j].id);
      KeptSize(x, y);
      StillGone(y, j + 1, id, luck);
    }
  }

  // A forget takes its lookups away, whether it has waited or not, and no other lookups.
  lemma ForgetCounts(x: System, n: Id, k: nat, m: Id)
    requires Valid(x) && MayForgetNow(x, n, k)
    ensures Tally(Forgotten(x, n, k).tree, m) == Tally(x.tree, m) - (if m == n then k else 0)
  {
    hide TreeInv, RefInv, HoldInv, LockInv, QueueOk, Waits, Budget, Forget;
    NodeRuns.ForgetEffect(x.tree, n, k, m);
  }

  lemma LateForget(x: System, i: nat, m: Id)
    requires Valid(x) && i < |x.lockq| && x.lockq[i].want.Forgetting?
    requires MayForgetNow(x.(lockq := Without(x.lockq, i)), x.lockq[i].want.node, x.lockq[i].want.count)
    ensures var x', w := ForgetWoken(x, i), x.lockq[i].want;
            && Tally(x'.tree, m) == Tally(x.tree, m) - (if m == w.node then w.count else 0)
            && x'.lockq == Without(x.lockq, i) && NotWaiting(x'.lockq, x.lockq[i].id)
  {
    hide Inv, QueueOk, Waits, Budget, MayForgetNow;
    Dequeue(x, i);
    ForgetCounts(x.(lockq := Without(x.lockq, i)), x.lockq[i].want.node, x.lockq[i].want.count, m);
  }

  // A forget waits iff it takes the last lookups of a node that somebody's path goes through or ends in for
  // writing.  Then it joins the queue and counts nothing yet; else it counts at once.
  lemma ForgetNow(x: System, id: nat, n: Id, k: nat, m: Id)
    requires Valid(x) && Unknown(x, id) && (n != ROOT ==> KernelWaits(x.tree, Queued(id, Forgetting(n, k))))
    requires n != ROOT && !MustWait(x.tree, n, k) ==> MayForgetNow(x, n, k)
    ensures var x', holds := ForgetNode(x, id, n, k), x.tree.holds;
            var waits := n != ROOT && k == Tally(x.tree, n) && (Readers(holds, n) != {} || Writers(holds, n) != {});
            && Tally(x'.tree, m) == Tally(x.tree, m) - (if m == n && n != ROOT && !waits then k else 0)
            && x'.lockq == x.lockq + (if waits then [Queued(id, Forgetting(n, k))] else [])
            && (waits ==> x'.tree == x.tree)
  {
    hide Inv, QueueOk, Waits, Budget, MayForgetNow, KernelWaits, Readers, Writers;
    if n != ROOT {
      WaitsIff(x, id, n, k);
      if !MustWait(x.tree, n, k) {
        ForgetCounts(x, n, k, m);
      }
    }
  }

  lemma WaitsIff(x: System, id: nat, n: Id, k: nat)
    requires Valid(x) && KernelWaits(x.tree, Queued(id, Forgetting(n, k))) && n != ROOT
    ensures MustWait(x.tree, n, k) <==>
            k == Tally(x.tree, n) && (Readers(x.tree.holds, n) != {} || Writers(x.tree.holds, n) != {})
  {
    hide QueueOk, Waits, Budget, RefInv, HoldInv, LockInv, Readers, Writers;
    LockWord(x.tree.lock, x.tree.holds, n);
  }
}
