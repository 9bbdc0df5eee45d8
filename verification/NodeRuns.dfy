/** Runs of the libfuse node tree: safety of every reachable state. */
module NodeRuns {
  import opened Common
  import opened NodeTree
  import opened NodeSteps

  datatype Step =
    | TryGetPath(t: Token, dir: Id, nm: string, write: bool, memory: Memory)
    | UnlockPath(t: Token)
    | FindNode(dir: Id, nm: string, newId: Id)
    | FindSelf(n: Id)
    | ForgetNode(n: Id, k: nat)
    | RemoveEntry(t: Token, nm: string)
    | RenameNode(tOld: Token, oldname: string, tNew: Token, newname: string, hiding: bool, oom: bool)

  // What the kernel and the lock discipline guarantee when a step is taken.
  ghost predicate Enabled(s: State, step: Step) {
    match step
    case TryGetPath(t, dir, nm, write, _) =>
      t !in s.holds && |s.holds| < INT_MAX - 1 && KernelHolds(s, dir, nm, write)
    case UnlockPath(t) => t in s.holds
    case FindNode(dir, nm, newId) => dir in s.lock && newId !in s.lock
    case FindSelf(n) => n in s.lock
    case ForgetNode(n, k) => MayForget(s, n, k)
    case RemoveEntry(t, nm) =>
      t in s.holds && (Lookup(s, s.holds[t].dir, nm).Some? ==> Lookup(s, s.holds[t].dir, nm) == s.holds[t].wnode)
    case RenameNode(tOld, oldname, tNew, newname, hiding, _) => MayRename(s, tOld, oldname, tNew, newname, hiding)
  }

  ghost function Do(s: State, step: Step): State
    requires Inv(s) && Enabled(s, step)
  {
    hide Line, Entries, Acyclic, Conserved, HoldInv, LockInv;
    match step
    case TryGetPath(t, dir, nm, write, memory) => TryWith(s, t, dir, nm, write, memory).0
    case UnlockPath(t) => Release(s, t)
    case FindNode(dir, nm, newId) =>
      FindKeepsInv(s, dir, nm, newId);
      Find(s, dir, nm, newId)
    case FindSelf(n) => IncLookup(s, n)
    case ForgetNode(n, k) => Forget(s, n, k)
    case RemoveEntry(t, nm) => RemoveNode(s, t, nm)
    case RenameNode(tOld, oldname, tNew, newname, hiding, oom) =>
      Rename(s, tOld, oldname, tNew, newname, hiding, oom)
  }

  lemma StepKeepsInv(s: State, step: Step)
    requires Inv(s) && Enabled(s, step)
    ensures Inv(Do(s, step))
  {
    match step
    case TryGetPath(t, dir, nm, write, memory) => TryWithKeepsInv(s, t, dir, nm, write, memory);
    case UnlockPath(t) => ReleaseKeepsInv(s, t);
    case FindNode(dir, nm, newId) => FindKeepsInv(s, dir, nm, newId);
    case FindSelf(n) => IncLookupKeepsInv(s, n);
    case ForgetNode(n, k) => ForgetKeepsInv(s, n, k);
    case RemoveEntry(t, nm) => RemoveKeepsInv(s, t, nm);
    case RenameNode(tOld, oldname, tNew, newname, hiding, oom) =>
      RenameKeepsInv(s, tOld, oldname, tNew, newname, hiding, oom);
  }

  lemma RemoveKeepsInv(s: State, t: Token, nm: string)
    requires Inv(s) && t in s.holds
    requires Lookup(s, s.holds[t].dir, nm).Some? ==> Lookup(s, s.holds[t].dir, nm) == s.holds[t].wnode
    ensures Inv(RemoveNode(s, t, nm))
  {
    hide Line, Entries, Acyclic, Conserved, HoldInv, LockInv, Unhash;
    var e := Lookup(s, s.holds[t].dir, nm);
    if e.Some? {
      UnhashWriteHeld(s, t, nm, e.value);
    }
  }

  // ------------------------------------------------------------------ whole runs

  // `fuse_new`: the root alone, referenced by the kernel.
  function Initial(): State {
    State(map[], map[], map[], map[ROOT := 1], map[ROOT := 1], map[ROOT := 0], map[])
  }

  lemma InitialInv()
    ensures Inv(Initial())
  {
    var s := Initial();
    assert Line(s.parent, ROOT, [ROOT]);
    assert Kids(s.entry, ROOT) == {};
    assert Readers(s.holds, ROOT) == {} && Writers(s.holds, ROOT) == {};
  }

  ghost predicate Legal(s: State, run: seq<Step>)
    requires Inv(s)
    decreases run
  {
    run == [] || (Enabled(s, run[0]) && (StepKeepsInv(s, run[0]); Legal(Do(s, run[0]), run[1..])))
  }

  ghost function After(s: State, run: seq<Step>): (s': State)
    requires Inv(s) && Legal(s, run)
    ensures Inv(s')
    decreases run
  {
    if run == [] then s else (StepKeepsInv(s, run[0]); After(Do(s, run[0]), run[1..]))
  }

  ghost predicate Reachable(s: State) {
    InitialInv();
    exists run :: Legal(Initial(), run) && s == After(Initial(), run)
  }

  /** In every reachable state the lock word of each node is exactly what the held paths make it; every held
      chain is the current chain of its directory and reaches the root; and a node that is write-held is in no
      held chain, not even above the directory of another held path. */
  lemma ReachableLocks(s: State)
    requires Reachable(s)
    ensures forall n :: n in s.lock ==> Decodes(s.lock[n], |Readers(s.holds, n)|, |Writers(s.holds, n)|)
    ensures forall t :: t in s.holds ==>
              s.holds[t].line != [] && Line(s.parent, s.holds[t].dir, s.holds[t].line) && Last(s.holds[t].line) == ROOT
    ensures forall t, u, w :: t in s.holds && u in s.holds && s.holds[t].wnode == Some(w) ==> w !in s.holds[u].line
  {
    hide Entries, Acyclic, Conserved, Readers, Writers;
    assert Inv(s);
    forall t | t in s.holds
      ensures s.holds[t].line != [] && Line(s.parent, s.holds[t].dir, s.holds[t].line) && Last(s.holds[t].line) == ROOT
    {
      assert HoldOk(s.parent, s.nlookup, s.holds[t]);
    }
    forall t, u, w | t in s.holds && u in s.holds && s.holds[t].wnode == Some(w)
      ensures w !in s.holds[u].line
    {
      WriteHeldOutside(s, t, w);
    }
  }

  /** In every reachable state every parent chain ends, no node has a dead parent, and every node is referenced
      exactly by the kernel, if at all, and by the nodes hashed under it. */
  lemma ReachableTree(s: State)
    requires Reachable(s)
    ensures forall n :: n in s.lock ==> HasLine(s.parent, n)
    ensures forall n :: n in s.parent ==> s.parent[n] in s.lock
    ensures forall n :: n in s.refctr ==> n in s.nlookup && s.refctr[n] == Due(s.entry, s.nlookup, n) > 0
  {
    hide HoldInv, LockInv, Kids, Line;
    assert Inv(s);
  }

  // While a path is held, no step of anyone changes the chain it stands for.
  lemma HeldPathStable(s: State, step: Step, t: Token)
    requires Inv(s) && Enabled(s, step) && t in s.holds && step != UnlockPath(t)
    ensures var s' := Do(s, step); t in s'.holds && s'.holds[t] == s.holds[t]
                                   && Line(s'.parent, s.holds[t].dir, s.holds[t].line)
  {
    var s' := Do(s, step);
    StepKeepsInv(s, step);
    HoldsUntouched(s, step);
    assert HoldOk(s'.parent, s'.nlookup, s'.holds[t]);
  }

  lemma HoldsUntouched(s: State, step: Step)
    requires Inv(s) && Enabled(s, step)
    ensures forall t :: t in s.holds && step != UnlockPath(t) ==>
              t in Do(s, step).holds && Do(s, step).holds[t] == s.holds[t]
  {
    hide Line, Entries, Acyclic, Conserved, HoldInv, LockInv;
    match step
    case TryGetPath(t, dir, nm, write, memory) => TryWithEffect(s, t, dir, nm, write, memory);
    case RenameNode(tOld, oldname, tNew, newname, hiding, oom) =>
      var node := Lookup(s, s.holds[tOld].dir, oldname);
      if node.Some? && (Lookup(s, s.holds[tNew].dir, newname).Some? ==> !hiding) {
        RenamedDetached(s, tOld, oldname, tNew, newname, hiding);
      }
    case _ =>
  }

  // A deleted node had lost its kernel reference, and at most the node deleted just before it was hashed
  // under it: the cascade deletes only what nothing references any more.
  lemma {:induction false} DoomedUnreferenced(s: State, c: seq<Id>, i: nat)
    requires c != [] && InvBut(s, Some(c[0])) && c[0] in s.lock && Line(s.parent, c[0], c)
    requires i < Doomed(s.refctr, c)
    ensures c[i] in s.nlookup && s.nlookup[c[i]] == 0
    ensures i == 0 ==> Kids(s.entry, c[0]) == {}
    ensures i > 0 ==> c[i - 1] in s.name && Kids(s.entry, c[i]) == {(c[i], s.name[c[i - 1]])}
  {
    hide Entries, Acyclic, HoldInv, LockInv;
    DoomedLast(s.refctr, c, i);
    LineDistinct(s.parent, c[0], c);
    if i > 0 {
      LineSuffix(s.parent, c[0], c, i - 1);
      EntryPresent(s, c[i - 1]);
      OnlyMember(Kids(s.entry, c[i]), (c[i], s.name[c[i - 1]]));
    }
  }

  lemma {:induction false} DoomedLast(refctr: map<Id, int>, c: seq<Id>, i: nat)
    requires i < Doomed(refctr, c)
    ensures c[i] in refctr && refctr[c[i]] == 1
  {
    if i > 0 {
      DoomedLast(refctr, c[1..], i - 1);
    }
  }

  lemma OnlyMember<T>(a: set<T>, x: T)
    requires x in a && |a| <= 1
    ensures a == {x}
  {
    forall y | y in a
      ensures y == x
    {
      if y != x { SubsetSize({x, y}, a); }
    }
  }

  // ------------------------------------------------------------------ lookups are counted

  // The cascade deletes only nodes without lookups.
  lemma FellTally(s: State, c: seq<Id>, m: Id)
    requires c != [] && InvBut(s, Some(c[0])) && c[0] in s.lock && Line(s.parent, c[0], c)
    ensures Tally(Fell(s, c), m) == Tally(s, m)
  {
    hide TreeInv, Conserved, HoldInv, LockInv, Line;
    if m in Elements(c[..Doomed(s.refctr, c)]) {
      var i :| 0 <= i < Doomed(s.refctr, c) && c[i] == m;
      DoomedUnreferenced(s, c, i);
    }
  }

  // Forgetting takes the lookups of one node away; as long as it has some left, nothing else happens.
  lemma ForgetEffect(s: State, n: Id, k: nat, m: Id)
    requires Inv(s) && MayForget(s, n, k)
    ensures var s' := Forget(s, n, k);
            && Tally(s', m) == Tally(s, m) - (if m == n then k else 0)
            && (k < s.nlookup[n] ==> s' == s.(nlookup := s.nlookup[n := s.nlookup[n] - k]))
  {
    hide Entries, Conserved, Line, HoldInv, LockInv, Fell;
    ForgetDropsRef(s, n, k);
    var s1 := s.(nlookup := s.nlookup[n := s.nlookup[n] - k]);
    assert HasLine(s.parent, n);
    var c := LineOf(s1.parent, n);
    LineHead(s1.parent, n, c);
    if s1.nlookup[n] == 0 {
      FellTally(s1, c, m);
    }
  }

  // What a step adds to the lookups of `n`.
  function Gain(s: State, step: Step, n: Id): int {
    match step
    case FindNode(dir, nm, newId) => if Found(s, dir, nm, newId) == n then 1 else 0
    case FindSelf(m) => if m == n then 1 else 0
    case ForgetNode(m, k) => if m == n then 0 - k else 0
    case _ => 0
  }

  lemma StepTally(s: State, step: Step, n: Id)
    requires Inv(s) && Enabled(s, step)
    ensures Tally(Do(s, step), n) == Tally(s, n) + Gain(s, step, n)
  {
    hide TreeInv, RefInv, HoldInv, LockInv, Find, IncLookup, Forget, RemoveNode, Rename, TryWith, Release;
    match step
    case TryGetPath(t, dir, nm, write, memory) => TryTally(s, t, dir, nm, write, memory);
    case UnlockPath(t) => ReleaseTally(s, t);
    case FindNode(dir, nm, newId) => FindEffect(s, dir, nm, newId);
    case FindSelf(m) => FindSelfEffect(s, m);
    case ForgetNode(m, k) => ForgetEffect(s, m, k, n);
    case RemoveEntry(t, nm) => RemoveEffect(s, t, nm);
    case RenameNode(tOld, oldname, tNew, newname, hiding, oom) =>
      RenameTally(s, tOld, oldname, tNew, newname, hiding, oom);
  }

  lemma TryTally(s: State, t: Token, dir: Id, nm: string, write: bool, m: Memory)
    requires TreeInv(s) && dir in s.nlookup && t !in s.holds
    ensures dir in s.lock && TryWith(s, t, dir, nm, write, m).0.nlookup == s.nlookup
  {
    hide Entries, Acyclic, TryWith;
    TryWithEffect(s, t, dir, nm, write, m);
  }

  lemma ReleaseTally(s: State, t: Token)
    requires t in s.holds
    ensures Release(s, t).nlookup == s.nlookup
  {
  }

  lemma RenameTally(s: State, old_: Token, oldname: string, new_: Token, newname: string, hiding: bool, oom: bool)
    requires Inv(s) && MayRename(s, old_, oldname, new_, newname, hiding)
    ensures Rename(s, old_, oldname, new_, newname, hiding, oom).nlookup == s.nlookup
  {
    hide TreeInv, RefInv, HoldInv, LockInv, Rename;
    RenameFails(s, old_, oldname, new_, newname, hiding, oom);
    if !oom && Lookup(s, s.holds[old_].dir, oldname).Some? &&
      (Lookup(s, s.holds[new_].dir, newname).Some? ==> !hiding) {
      RenameEffect(s, old_, oldname, new_, newname, hiding);
    }
  }

  // The finds that returned `n` in a run, less the lookups of it that were forgotten.
  ghost function Net(s: State, run: seq<Step>, n: Id): int
    requires Inv(s) && Legal(s, run)
    decreases run
  {
    if run == [] then 0
    else (StepKeepsInv(s, run[0]); Gain(s, run[0], n) + Net(Do(s, run[0]), run[1..], n))
  }

  /** Over every run the kernel's references are exactly the lookups it was given and has not forgotten; a node without
      any is not there or has none. */
  lemma {:induction false} LookupsCounted(s: State, run: seq<Step>, n: Id)
    requires Inv(s) && Legal(s, run)
    ensures Tally(After(s, run), n) == Tally(s, n) + Net(s, run, n)
    decreases run
  {
    hide Inv, Do, Enabled, Gain, Tally;
    if run != [] {
      StepKeepsInv(s, run[0]);
      StepTally(s, run[0], n);
      LookupsCounted(Do(s, run[0]), run[1..], n);
    }
  }

  lemma ReachableLookups(run: seq<Step>, n: Id)
    requires Inv(Initial()) && Legal(Initial(), run)
    ensures Tally(After(Initial(), run), n) == (if n == ROOT then 1 else 0) + Net(Initial(), run, n)
  {
    hide Inv, Legal, After, Net;
    LookupsCounted(Initial(), run, n);
  }
}
