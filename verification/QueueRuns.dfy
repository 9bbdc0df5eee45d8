/** Runs of the node tree with its queue: which requests get their paths, and what every reachable state keeps. */
module QueueRuns {
  import opened Common
  import opened NodeTree
  import opened NodeSteps
  import opened FuseNodes
  import opened QueueSteps
  import NodeRuns

  // ------------------------------------------------------------------ frames

  ghost predicate NotWaiting(q: seq<Elem>, id: nat) {
    forall i :: 0 <= i < |q| ==> q[i].id != id
  }

  // A change to the paths of a request that is not queued.
  lemma Elsewhere(x: System, s: State, all: set<Token>, id: nat)
    requires Valid(x) && NotWaiting(x.lockq, id) && Inv(s) && Frame(x.tree, s, id) && Budget(all, s.holds)
    requires forall t :: t in x.all && t.request != id ==> t in all
    ensures Valid(System(s, x.lockq, all))
  {
    hide Inv, ElemOk, KernelWaits, SameBut, Budget;
    forall i | 0 <= i < |x.lockq|
      ensures ElemOk(x.lockq[i], s.holds) && KernelWaits(s, x.lockq[i]) && Counted(x.lockq[i], all)
    {
      ElemFrame(x.lockq[i], x.tree.holds, s.holds, id);
      WaitsFrame(x.tree, s, x.lockq[i], x.lockq[i]);
    }
  }

  lemma Enqueue(x: System, e: Elem)
    requires Valid(x) && NotWaiting(x.lockq, e.id) && e == Queued(e.id, e.want)
    requires ElemOk(e, x.tree.holds) && KernelWaits(x.tree, e) && Counted(e, x.all)
    ensures Valid(x.(lockq := x.lockq + [e]))
  {
    hide Inv, ElemOk, KernelWaits, Budget;
  }

  lemma Dequeue(x: System, i: nat)
    requires Valid(x) && i < |x.lockq|
    ensures Valid(x.(lockq := Without(x.lockq, i))) && NotWaiting(Without(x.lockq, i), x.lockq[i].id)
  {
    hide Inv, ElemOk, KernelWaits, Budget;
    var q, r := x.lockq, Without(x.lockq, i);
    assert forall j :: 0 <= j < |r| ==> r[j] == q[if j < i then j else j + 1];
  }

  // ------------------------------------------------------------------ acquiring

  // A new request, and room for its paths.
  ghost predicate Unknown(x: System, id: nat) {
    Token(id, false) !in x.all && Token(id, true) !in x.all && |x.all| < INT_MAX - 3
  }

  lemma UnknownIds(x: System, id: nat)
    requires Valid(x) && Unknown(x, id)
    ensures NotWaiting(x.lockq, id) && Token(id, false) !in x.tree.holds && Token(id, true) !in x.tree.holds
    ensures |x.tree.holds| < INT_MAX - 3
  {
    hide Inv, ElemOk, KernelWaits;
    forall i | 0 <= i < |x.lockq|
      ensures x.lockq[i].id != id
    {
      assert Counted(x.lockq[i], x.all);
    }
    SubsetSize(x.tree.holds.Keys, x.all);
  }

  lemma TwoMore(all: set<Token>, holds: map<Token, Hold>, holds': map<Token, Hold>, id: nat)
    requires Budget(all, holds) && |all| < INT_MAX - 3
    requires holds'.Keys <= holds.Keys + {Token(id, false), Token(id, true)}
    ensures Budget(all + {Token(id, false), Token(id, true)}, holds')
    ensures holds' == holds ==> Budget(all, holds')
  {
    var more := {Token(id, false), Token(id, true)};
    assert |all + more| == |all| + |more| - |all * more|;
  }

  // The state after an attempt of request `id`, which may now hold its paths or wait for them.
  lemma Attempted(x: System, id: nat, s: State)
    requires Valid(x) && Unknown(x, id) && Inv(s) && Frame(x.tree, s, id)
    requires s.holds.Keys <= x.tree.holds.Keys + {Token(id, false), Token(id, true)}
    ensures Valid(x.(tree := s, all := x.all + {Token(id, false), Token(id, true)}))
    ensures s.holds == x.tree.holds ==> Valid(x.(tree := s))
  {
    hide Inv, QueueOk, Waits, Frame, Budget;
    UnknownIds(x, id);
    var all := x.all + {Token(id, false), Token(id, true)};
    TwoMore(x.all, x.tree.holds, s.holds, id);
    Elsewhere(x, s, all, id);
    if s.holds == x.tree.holds {
      Elsewhere(x, s, x.all, id);
    }
  }

  lemma Joined(x: System, id: nat, s: State, want: Want)
    requires Valid(x) && Unknown(x, id) && Inv(s) && Frame(x.tree, s, id) && s.holds == x.tree.holds
    requires KernelWaits(x.tree, Queued(id, want))
    requires want.Paths? ==> Posed(want.first) && (want.second.Some? ==> Posed(want.second.value))
    ensures Valid(Join(x, id, s, want))
  {
    hide Inv, QueueOk, Waits, KernelWaits;
    Attempted(x, id, s);
    UnknownIds(x, id);
    var y := x.(tree := s, all := x.all + {Token(id, false), Token(id, true)});
    WaitsFrame(x.tree, s, Queued(id, want), Queued(id, want));
    Enqueue(y, Queued(id, want));
  }

  // `queue_path`
  ghost function Join(x: System, id: nat, s: State, want: Want): System {
    System(s, x.lockq + [Queued(id, want)], x.all + {Token(id, false), Token(id, true)})
  }

  // How an attempt ends: with the paths, in the queue, or with an error.
  ghost function Outcome(x: System, id: nat, s: State, err: Err, want: Want): System {
    if err == Ok then x.(tree := s, all := x.all + {Token(id, false), Token(id, true)})
    else if err == EAGAIN then Join(x, id, s, want)
    else x.(tree := s)
  }

  // `get_path_common`, up to the wait
  ghost function GetPath(x: System, id: nat, a: Ask, m: Memory): (x': System)
    requires Valid(x) && Unknown(x, id) && Posed(a) && KernelAsks(x.tree, a)
    ensures Valid(x')
  {
    hide Inv, QueueOk, Waits, KernelHolds, TryAsk, Unknown;
    UnknownIds(x, id);
    var t := Token(id, false);
    var (s, err) := TryAsk(x.tree, t, a, m);
    TriedFrame(x.tree, s, t, err);
    Attempted(x, id, s);
    assert err == EAGAIN ==> Valid(Join(x, id, s, Paths(a, None))) by {
      if err == EAGAIN { Joined(x, id, s, Paths(a, None)); }
    }
    Outcome(x, id, s, err, Paths(a, None))
  }

  // What the attempt of `get_path_common` returns.
  ghost function GetError(x: System, id: nat, a: Ask, m: Memory): Err
    requires Valid(x) && Unknown(x, id) && KernelAsks(x.tree, a)
  {
    hide Inv, QueueOk, Waits, KernelHolds, TryAsk;
    UnknownIds(x, id);
    TryAsk(x.tree, Token(id, false), a, m).1
  }

  lemma TriedFrame(s: State, s': State, t: Token, err: Err)
    requires t !in s.holds && s' == s.(lock := s'.lock, holds := s'.holds) && s'.lock.Keys == s.lock.Keys
    requires err == Ok ==> s'.holds.Keys == s.holds.Keys + {t} && s'.holds - {t} == s.holds
    requires err != Ok ==> s'.holds == s.holds
    ensures Frame(s, s', t.request)
  {
    if err == Ok {
      AddedOne(s.holds, s'.holds, t);
    }
  }

  // `get_path2`, up to the wait
  ghost function GetPath2(x: System, id: nat, a: Ask, b: Ask, luck: Luck): (x': System)
    requires Valid(x) && Unknown(x, id) && Posed(a) && Posed(b) && KernelAsks(x.tree, a) && KernelAsks(x.tree, b)
    ensures Valid(x')
  {
    hide Inv, QueueOk, Waits, KernelHolds, TryBoth, Unknown;
    UnknownIds(x, id);
    var t1, t2 := Token(id, false), Token(id, true);
    var (s, err) := TryBoth(x.tree, t1, a.dir, Key(a.nm), a.write, t2, b.dir, Key(b.nm), b.write, luck);
    BothFrame(x.tree, s, t1, t2, err);
    Attempted(x, id, s);
    assert err == EAGAIN ==> Valid(Join(x, id, s, Paths(a, Some(b)))) by {
      if err == EAGAIN { Joined(x, id, s, Paths(a, Some(b))); }
    }
    Outcome(x, id, s, err, Paths(a, Some(b)))
  }

  // What the attempt of `get_path2` returns.
  ghost function GetError2(x: System, id: nat, a: Ask, b: Ask, luck: Luck): Err
    requires Valid(x) && Unknown(x, id) && KernelAsks(x.tree, a) && KernelAsks(x.tree, b)
  {
    hide Inv, QueueOk, Waits, KernelHolds, TryBoth;
    UnknownIds(x, id);
    TryBoth(x.tree, Token(id, false), a.dir, Key(a.nm), a.write, Token(id, true), b.dir, Key(b.nm), b.write, luck).1
  }

  lemma BothFrame(s: State, s': State, t1: Token, t2: Token, err: Err)
    requires t1 !in s.holds && t2 !in s.holds && t1.request == t2.request
    requires s' == s.(lock := s'.lock, holds := s'.holds) && s'.lock.Keys == s.lock.Keys
    requires err == Ok ==> s'.holds.Keys == s.holds.Keys + {t1, t2} && s'.holds - {t1} - {t2} == s.holds
    requires err != Ok ==> s'.holds == s.holds
    ensures Frame(s, s', t1.request)
  {
    if err == Ok {
      var h := s'.holds - {t1} - {t2};
      assert forall u :: u in s'.holds && u != t1 && u != t2 ==> u in h && h[u] == s'.holds[u];
    }
  }

  // ------------------------------------------------------------------ giving back and leaving

  // One path of a request has been given back.
  ghost function GivenUp(x: System, id: nat): (x': System)
    requires Valid(x) && NotWaiting(x.lockq, id) && Token(id, false) in x.tree.holds && Token(id, true) !in x.tree.holds
    ensures Valid(x')
  {
    hide Inv, QueueOk, Waits, Freed;
    ReleaseKeepsInv(x.tree, Token(id, false));
    var y := System(Release(x.tree, Token(id, false)), x.lockq, x.all - {Token(id, false), Token(id, true)});
    SubsetSize(y.all, x.all);
    ReleaseFrame(x.tree, Token(id, false));
    Elsewhere(x, y.tree, y.all, id);
    y
  }

  // `free_path_wrlock`
  ghost function FreePath(x: System, id: nat, luck: nat -> Luck): (x': System)
    requires Valid(x) && NotWaiting(x.lockq, id) && Token(id, false) in x.tree.holds && Token(id, true) !in x.tree.holds
    ensures Valid(x')
  {
    WakeAll(GivenUp(x, id), 0, luck)
  }

  lemma ReleaseFrame(s: State, t: Token)
    requires t in s.holds
    ensures Frame(s, Release(s, t), t.request)
  {
    ReleaseKeys(s, t);
  }

  // Both paths of a request have been given back.
  ghost function GivenUp2(x: System, id: nat): (x': System)
    requires Valid(x) && NotWaiting(x.lockq, id) && Token(id, false) in x.tree.holds && Token(id, true) in x.tree.holds
    ensures Valid(x')
  {
    hide Inv, QueueOk, Waits, Freed;
    ReleaseKeepsInv(x.tree, Token(id, false));
    var s1 := Release(x.tree, Token(id, false));
    ReleaseKeepsInv(s1, Token(id, true));
    var y := System(Release(s1, Token(id, true)), x.lockq, x.all - {Token(id, false), Token(id, true)});
    SubsetSize(y.all, x.all);
    ReleaseFrame(x.tree, Token(id, false));
    ReleaseFrame(s1, Token(id, true));
    FrameTrans(x.tree, s1, y.tree, id);
    Elsewhere(x, y.tree, y.all, id);
    y
  }

  // `free_path2`
  ghost function FreePath2(x: System, id: nat, luck: nat -> Luck): (x': System)
    requires Valid(x) && NotWaiting(x.lockq, id) && Token(id, false) in x.tree.holds && Token(id, true) in x.tree.holds
    ensures Valid(x')
  {
    WakeAll(GivenUp2(x, id), 0, luck)
  }

  // The end of `wait_path`: a request that is done leaves the queue.
  ghost function WaitPath(x: System, i: nat): (x': System)
    requires Valid(x) && i < |x.lockq| && x.lockq[i].done
    ensures Valid(x')
  {
    hide Inv, QueueOk, Waits;
    Dequeue(x, i);
    var e := x.lockq[i];
    var all := if e.err == Ok then x.all else x.all - ({e.T1(), e.T2()} - x.tree.holds.Keys);
    var y := x.(lockq := Without(x.lockq, i));
    SubsetSize(all, x.all);
    FrameRefl(x.tree, e.id);
    Elsewhere(y, x.tree, all, e.id);
    y.(all := all)
  }

  // ------------------------------------------------------------------ forgetting

  // A state in which the kernel has kept every reference, and every new entry is referenced.
  ghost predicate StillReferenced(s: State, s': State) {
    && (forall n :: n in s.nlookup && s.nlookup[n] > 0 ==>
          n in s'.nlookup && s'.nlookup[n] >= s.nlookup[n] && (n in s.lock ==> n in s'.lock))
    && (forall k :: k in s'.entry ==>
          || (k in s.entry && s'.entry[k] == s.entry[k])
          || (s'.entry[k] in s'.nlookup && s'.nlookup[s'.entry[k]] > 0))
  }

  lemma WaitsKept(s: State, s': State, e: Elem)
    requires KernelWaits(s, e) && StillReferenced(s, s')
    ensures KernelWaits(s', e)
  {
  }

  // A change to the tree that no path is affected by.
  lemma TreeChanged(x: System, s: State, base: State)
    requires Valid(x) && Inv(s) && s.holds == x.tree.holds
    requires Waits(base, x.lockq, x.all) && StillReferenced(base, s)
    ensures Valid(x.(tree := s))
  {
    hide Inv, ElemOk, KernelWaits, StillReferenced, Budget;
    forall i | 0 <= i < |x.lockq|
      ensures KernelWaits(s, x.lockq[i])
    {
      WaitsKept(base, s, x.lockq[i]);
    }
  }

  // The tree once the kernel has given up `k` of its references to `n`.
  function Forsaken(s: State, n: Id, k: nat): State
    requires n in s.nlookup && k <= s.nlookup[n]
  {
    s.(nlookup := s.nlookup[n := s.nlookup[n] - k])
  }

  lemma {:induction false} FellKeepsReferenced(s: State, c: seq<Id>)
    requires c != [] && InvBut(s, Some(c[0])) && c[0] in s.lock && Line(s.parent, c[0], c)
    ensures StillReferenced(s, Fell(s, c)) && Fell(s, c).holds == s.holds
  {
    hide Inv, TreeInv, Conserved, HoldInv, LockInv, Line;
    var dead := Elements(c[..Doomed(s.refctr, c)]);
    forall n | n in dead
      ensures n in s.nlookup && s.nlookup[n] == 0
    {
      var i :| 0 <= i < Doomed(s.refctr, c) && c[i] == n;
      NodeRuns.DoomedUnreferenced(s, c, i);
    }
  }

  lemma ForgetKeepsReferenced(s: State, n: Id, k: nat)
    requires Inv(s) && MayForget(s, n, k)
    ensures StillReferenced(Forsaken(s, n, k), Forget(s, n, k)) && Forget(s, n, k).holds == s.holds
  {
    hide Entries, Conserved, Line, HoldInv, LockInv;
    ForgetDropsRef(s, n, k);
    var s1 := Forsaken(s, n, k);
    assert HasLine(s.parent, n);
    var c := LineOf(s1.parent, n);
    LineHead(s1.parent, n, c);
    if s1.nlookup[n] == 0 {
      hide StillReferenced, Fell;
      FellKeepsReferenced(s1, c);
    }
  }

  // The kernel's remaining references cover everything that waits.
  ghost predicate MayForgetNow(x: System, n: Id, k: nat) {
    MayForget(x.tree, n, k) && Waits(Forsaken(x.tree, n, k), x.lockq, x.all)
  }

  ghost function Forgotten(x: System, n: Id, k: nat): (x': System)
    requires Valid(x) && MayForgetNow(x, n, k)
    ensures Valid(x')
  {
    hide TreeInv, RefInv, HoldInv, LockInv, QueueOk, Waits, Forget, StillReferenced;
    ForgetKeepsInv(x.tree, n, k);
    ForgetKeepsReferenced(x.tree, n, k);
    TreeChanged(x, Forget(x.tree, n, k), Forsaken(x.tree, n, k));
    x.(tree := Forget(x.tree, n, k))
  }

  // The node is locked and this would be its last lookup.
  ghost predicate MustWait(s: State, n: Id, k: nat) {
    n in s.nlookup && n in s.lock && s.nlookup[n] == k && s.lock[n] != 0
  }

  // `forget_node`, up to the wait
  ghost function ForgetNode(x: System, id: nat, n: Id, k: nat): (x': System)
    requires Valid(x) && Unknown(x, id) && (n != ROOT ==> KernelWaits(x.tree, Queued(id, Forgetting(n, k))))
    requires n != ROOT && !MustWait(x.tree, n, k) ==> MayForgetNow(x, n, k)
    ensures Valid(x')
  {
    hide Inv, QueueOk, Waits;
    if n == ROOT then x
    else if MustWait(x.tree, n, k) then
      FrameRefl(x.tree, id);
      Joined(x, id, x.tree, Forgetting(n, k));
      Join(x, id, x.tree, Forgetting(n, k))
    else Forgotten(x, n, k)
  }

  // The rest of `forget_node` for a request that has waited.
  ghost function ForgetWoken(x: System, i: nat): (x': System)
    requires Valid(x) && i < |x.lockq| && x.lockq[i].want.Forgetting?
    requires MayForgetNow(x.(lockq := Without(x.lockq, i)), x.lockq[i].want.node, x.lockq[i].want.count)
    ensures Valid(x')
  {
    hide Inv, QueueOk, Waits;
    Dequeue(x, i);
    Forgotten(x.(lockq := Without(x.lockq, i)), x.lockq[i].want.node, x.lockq[i].want.count)
  }

  // ------------------------------------------------------------------ the other operations on the tree

  predicate OnTree(step: NodeRuns.Step) {
    step.FindNode? || step.FindSelf? || step.RemoveEntry? || step.RenameNode?
  }

  lemma FindReferenced(s: State, dir: Id, nm: string, newId: Id)
    requires Inv(s) && dir in s.lock && newId !in s.lock
    requires Lookup(s, dir, nm).Some? ==> Lookup(s, dir, nm).value in s.lock
    ensures StillReferenced(s, Find(s, dir, nm, newId)) && Find(s, dir, nm, newId).holds == s.holds
  {
    hide Line, Entries, Acyclic, Conserved, HoldInv, LockInv;
  }

  lemma HeldReferenced(s: State, t: Token, w: Id)
    requires HoldInv(s.parent, s.nlookup, s.holds) && t in s.holds && s.holds[t].wnode == Some(w)
    ensures w in s.nlookup && s.nlookup[w] > 0
  {
    hide Line;
    assert HoldOk(s.parent, s.nlookup, s.holds[t]);
  }

  lemma RenameReferenced(s: State, old_: Token, oldname: string, new_: Token, newname: string, hiding: bool, oom: bool)
    requires Inv(s) && MayRename(s, old_, oldname, new_, newname, hiding)
    ensures var s' := Rename(s, old_, oldname, new_, newname, hiding, oom);
            StillReferenced(s, s') && s'.holds == s.holds
  {
    hide Line, Entries, Acyclic, Conserved, HoldInv, LockInv, Unhash, Attachable;
    var node := Lookup(s, s.holds[old_].dir, oldname);
    if node.Some? && (Lookup(s, s.holds[new_].dir, newname).Some? ==> !hiding) {
      ReplacedKeepsInv(s, old_, oldname, new_, newname, hiding);
      RenamedDetached(s, old_, oldname, new_, newname, hiding);
      var s1 := Replaced(s, new_, newname);
      hide Replaced;
      UnhashWriteHeld(s1, old_, oldname, node.value);
      HeldReferenced(s, old_, node.value);
    }
  }

  lemma SelfReferenced(s: State, n: Id)
    requires Inv(s) && n in s.lock
    ensures StillReferenced(s, IncLookup(s, n)) && IncLookup(s, n).holds == s.holds
  {
    hide Line, Entries, Acyclic, Conserved, HoldInv, LockInv;
  }

  lemma RemoveReferenced(s: State, t: Token, nm: string)
    requires Inv(s) && t in s.holds
    requires Lookup(s, s.holds[t].dir, nm).Some? ==> Lookup(s, s.holds[t].dir, nm) == s.holds[t].wnode
    ensures StillReferenced(s, RemoveNode(s, t, nm)) && RemoveNode(s, t, nm).holds == s.holds
  {
    hide Line, Entries, Acyclic, Conserved, HoldInv, LockInv, Unhash;
    var e := Lookup(s, s.holds[t].dir, nm);
    if e.Some? {
      UnhashWriteHeld(s, t, nm, e.value);
    }
  }

  lemma OnTreeReferenced(s: State, step: NodeRuns.Step)
    requires Inv(s) && NodeRuns.Enabled(s, step) && OnTree(step)
    ensures StillReferenced(s, NodeRuns.Do(s, step)) && NodeRuns.Do(s, step).holds == s.holds
  {
    hide StillReferenced, TreeInv, RefInv, HoldInv, LockInv, Find, IncLookup, RemoveNode, Rename, MayRename;
    match step
    case FindNode(dir, nm, newId) =>
      FindKeepsInv(s, dir, nm, newId);
      FindReferenced(s, dir, nm, newId);
    case FindSelf(n) =>
      SelfReferenced(s, n);
    case RemoveEntry(t, nm) =>
      RemoveReferenced(s, t, nm);
    case RenameNode(tOld, oldname, tNew, newname, hiding, oom) =>
      RenameReferenced(s, tOld, oldname, tNew, newname, hiding, oom);
  }

  ghost function OnTheTree(x: System, step: NodeRuns.Step): (x': System)
    requires Valid(x) && OnTree(step) && NodeRuns.Enabled(x.tree, step)
    ensures Valid(x')
  {
    hide Inv, QueueOk, Waits, StillReferenced, NodeRuns.Do, NodeRuns.Enabled;
    NodeRuns.StepKeepsInv(x.tree, step);
    OnTreeReferenced(x.tree, step);
    TreeChanged(x, NodeRuns.Do(x.tree, step), x.tree);
    x.(tree := NodeRuns.Do(x.tree, step))
  }

  // ------------------------------------------------------------------ runs

  datatype Action =
    | Get(id: nat, a: Ask, memory: Memory)
    | Get2(id: nat, a: Ask, b: Ask, luck2: Luck)
    | Free(id: nat, luck: nat -> Luck)
    | Free2(id: nat, luck: nat -> Luck)
    | Leave(i: nat)
    | Forget_(id: nat, n: Id, k: nat)
    | ForgetLate(i: nat)
    | Tree(step: NodeRuns.Step)

  // What the callers and the kernel guarantee when an action is taken.
  ghost predicate Enabled(x: System, act: Action) {
    match act
    case Get(id, a, _) => Unknown(x, id) && Posed(a) && KernelAsks(x.tree, a)
    case Get2(id, a, b, _) =>
      Unknown(x, id) && Posed(a) && Posed(b) && KernelAsks(x.tree, a) && KernelAsks(x.tree, b)
    case Free(id, _) =>
      NotWaiting(x.lockq, id) && Token(id, false) in x.tree.holds && Token(id, true) !in x.tree.holds
    case Free2(id, _) =>
      NotWaiting(x.lockq, id) && Token(id, false) in x.tree.holds && Token(id, true) in x.tree.holds
    case Leave(i) => i < |x.lockq| && x.lockq[i].done
    case Forget_(id, n, k) =>
      && Unknown(x, id) && (n != ROOT ==> KernelWaits(x.tree, Queued(id, Forgetting(n, k))))
      && (n != ROOT && !MustWait(x.tree, n, k) ==> MayForgetNow(x, n, k))
    case ForgetLate(i) =>
      && i < |x.lockq| && x.lockq[i].want.Forgetting?
      && MayForgetNow(x.(lockq := Without(x.lockq, i)), x.lockq[i].want.node, x.lockq[i].want.count)
    case Tree(step) => OnTree(step) && NodeRuns.Enabled(x.tree, step)
  }

  // Every action keeps the invariants of the tree and of the queue.
  ghost function Do(x: System, act: Action): (x': System)
    requires Valid(x) && Enabled(x, act)
    ensures Valid(x')
  {
    hide Valid, KernelAsks, NodeRuns.Enabled, MayForgetNow, KernelWaits, GetPath, GetPath2, FreePath, FreePath2;
    match act
    case Get(id, a, memory) => GetPath(x, id, a, memory)
    case Get2(id, a, b, luck2) => GetPath2(x, id, a, b, luck2)
    case Free(id, luck) => FreePath(x, id, luck)
    case Free2(id, luck) => FreePath2(x, id, luck)
    case Leave(i) => WaitPath(x, i)
    case Forget_(id, n, k) => ForgetNode(x, id, n, k)
    case ForgetLate(i) => ForgetWoken(x, i)
    case Tree(step) => OnTheTree(x, step)
  }

  function Start(): System {
    System(NodeRuns.Initial(), [], {})
  }

  lemma StartValid()
    ensures Valid(Start())
  {
    NodeRuns.InitialInv();
  }

  // `x` is reached from the start in `n` actions.
  ghost predicate ReachedIn(x: System, n: nat)
    decreases n
  {
    if n == 0 then x == Start()
    else exists y, act :: ReachedIn(y, n - 1) && Valid(y) && Enabled(y, act) && x == Do(y, act)
  }

  ghost predicate Reachable(x: System) {
    exists n: nat :: ReachedIn(x, n)
  }

  lemma {:induction false} ReachedValid(x: System, n: nat)
    requires ReachedIn(x, n)
    ensures Valid(x)
  {
    hide Valid, Do, Enabled;
    if n == 0 {
      StartValid();
    } else {
      var y, act :| ReachedIn(y, n - 1) && Valid(y) && Enabled(y, act) && x == Do(y, act);
    }
  }

  lemma ReachableValid(x: System)
    requires Reachable(x)
    ensures Valid(x)
  {
    var n: nat :| ReachedIn(x, n);
    ReachedValid(x, n);
  }

  lemma ReachableNext(x: System, act: Action)
    requires Reachable(x) && Valid(x) && Enabled(x, act)
    ensures Reachable(Do(x, act))
  {
    hide Valid, Do, Enabled;
    var n: nat :| ReachedIn(x, n);
    assert ReachedIn(Do(x, act), n + 1);
  }

  /** In every reachable state only the head of the queue holds one of its two paths without the other; a request
      is done without an error iff it holds every path it asked for; one that is done with an error holds nothing,
      unless it is at the head, asked for two paths and has since been given exactly one of them. */
  lemma ReachableQueue(x: System, i: nat)
    requires Reachable(x) && i < |x.lockq|
    ensures var e, holds := x.lockq[i], x.tree.holds;
            && (e.firstLocked <==> e.T1() in holds) && (e.secondLocked <==> e.T2() in holds)
            && (i > 0 ==> e.Full() || e.Empty())
            && (e.done && e.err == Ok <==> e.Full())
            && (e.Full() ==> holds[e.T1()].dir == e.want.first.dir)
            && (e.Full() && e.Two() ==> holds[e.T2()].dir == e.want.second.value.dir)
            && (e.done && e.err != Ok && !e.Empty() ==> i == 0 && e.Two() && e.firstLocked != e.secondLocked)
  {
    hide Inv, Waits, Budget;
    ReachableValid(x);
    assert ElemOk(x.lockq[i], x.tree.holds) && Settled(x.lockq[i]);
  }

  // ------------------------------------------------------------------ leaving

  // A request leaves the queue with exactly the paths its flags say.
  lemma LeaveHolds(x: System, i: nat)
    requires Valid(x) && i < |x.lockq| && x.lockq[i].done
    ensures var e, x' := x.lockq[i], WaitPath(x, i);
            && (e.T1() in x'.tree.holds <==> e.firstLocked) && (e.T2() in x'.tree.holds <==> e.secondLocked)
            && NotWaiting(x'.lockq, e.id)
            && (e.err != Ok && i > 0 ==> e.T1() !in x'.tree.holds && e.T2() !in x'.tree.holds)
  {
    hide Inv, Waits, Budget;
    Dequeue(x, i);
    assert ElemOk(x.lockq[i], x.tree.holds) && Settled(x.lockq[i]);
  }
}
