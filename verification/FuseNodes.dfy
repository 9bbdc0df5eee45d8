/** The imperative code on the node tree, each operation proved to perform its step of NodeSteps.

    The nodes are kept field by field in maps keyed by node id; a field that is NULL is absent from its map.
    `holds` is ghost: it records which paths the callers hold. */
module FuseNodes {
  import opened Common
  import opened Paths
  import opened NodeTree
  import opened NodeSteps

  // The lock words after the climb has gone through the first `i` nodes of `c`.
  ghost function Climbed(base: map<Id, int>, c: seq<Id>, i: nat): map<Id, int>
    requires i <= |c|
  {
    map n | n in base :: if n in c[..i] then base[n] + 1 else base[n]
  }

  lemma ClimbNone(base: map<Id, int>, c: seq<Id>)
    ensures Climbed(base, c, 0) == base
  {
  }

  lemma ClimbOne(base: map<Id, int>, c: seq<Id>, i: nat)
    requires i < |c| && Distinct(c) && c[i] in base
    ensures c[i] in Climbed(base, c, i) && Climbed(base, c, i)[c[i]] == base[c[i]]
    ensures Climbed(base, c, i)[c[i] := base[c[i]] + 1] == Climbed(base, c, i + 1)
  {
    assert c[..i + 1] == c[..i] + [c[i]];
  }

  ghost function Lowered(base: map<Id, int>, c: seq<Id>, i: nat): map<Id, int>
    requires i <= |c|
  {
    map n | n in base :: if n in c[..i] then Unread(base[n]) else base[n]
  }

  lemma LowerNone(base: map<Id, int>, c: seq<Id>)
    ensures Lowered(base, c, 0) == base
  {
  }

  lemma LowerOne(base: map<Id, int>, c: seq<Id>, i: nat)
    requires i < |c| && Distinct(c) && c[i] in base
    ensures c[i] in Lowered(base, c, i) && Lowered(base, c, i)[c[i]] == base[c[i]]
    ensures Lowered(base, c, i)[c[i] := Unread(base[c[i]])] == Lowered(base, c, i + 1)
  {
    assert c[..i + 1] == c[..i] + [c[i]];
  }

  // The names from the root down to the bottom of the chain, each preceded by a slash.
  ghost function PathName(name: map<Id, string>, c: seq<Id>, i: nat, tail: string): string
    requires i <= |c|
  {
    if i == 0 then tail
    else "/" + (if c[i - 1] in name then name[c[i - 1]] else "") + PathName(name, c, i - 1, tail)
  }

  function Suffix(nm: Option<string>): string {
    if nm.Some? then "/" + nm.value else ""
  }

  function Key(nm: Option<string>): string {
    if nm.Some? then nm.value else ""
  }

  function Shown(path: string): string {
    if path == "" then "/" else path
  }

  // ------------------------------------------------------------------ what a path means

  // Looking one name up after the other, from `n` down.
  function Descend(s: State, n: Id, comps: seq<string>): Option<Id>
    decreases |comps|
  {
    if comps == [] then Some(n)
    else
      match Lookup(s, n, comps[0])
      case None => None
      case Some(m) => Descend(s, m, comps[1..])
  }

  // The names along a chain are names: not empty, and without slashes.
  ghost predicate ProperNames(name: map<Id, string>, c: seq<Id>) {
    forall k :: 0 <= k < |c| - 1 ==> c[k] in name && Proper(name[c[k]])
  }

  // The names below `c[i]`, from the top down.
  ghost function Names(name: map<Id, string>, c: seq<Id>, i: nat): seq<string>
    requires i < |c| && ProperNames(name, c)
    ensures |Names(name, c, i)| == i
    decreases i
  {
    if i == 0 then [] else [name[c[i - 1]]] + Names(name, c, i - 1)
  }

  lemma {:induction false} NamesProper(name: map<Id, string>, c: seq<Id>, i: nat)
    requires i < |c| && ProperNames(name, c)
    ensures forall k :: 0 <= k < i ==> Proper(Names(name, c, i)[k])
    decreases i
  {
    if i > 0 {
      NamesProper(name, c, i - 1);
    }
  }

  // Looking the names up leads down the chain.
  lemma {:induction false} NamesDescend(s: State, n: Id, c: seq<Id>, i: nat)
    requires TreeInv(s) && Line(s.parent, n, c) && i < |c| && ProperNames(s.name, c)
    ensures Descend(s, c[i], Names(s.name, c, i)) == Some(n)
    decreases i
  {
    hide Line, Acyclic, Entries;
    LineHead(s.parent, n, c);
    if i > 0 {
      NamesDescend(s, n, c, i - 1);
      LineSuffix(s.parent, n, c, i - 1);
      EntryPresent(s, c[i - 1]);
      assert Names(s.name, c, i)[1..] == Names(s.name, c, i - 1);
    }
  }

  lemma {:induction false} PathText(name: map<Id, string>, c: seq<Id>, i: nat, tail: string)
    requires i < |c| && ProperNames(name, c)
    ensures PathName(name, c, i, tail) == Slashed(Names(name, c, i)) + tail
    decreases i
  {
    if i > 0 {
      PathText(name, c, i - 1, tail);
      assert Names(name, c, i)[1..] == Names(name, c, i - 1);
    }
  }

  // A path that leads from the root to `dir`, and on to the entry `nm` of it.
  ghost predicate Leads(s: State, path: string, dir: Id, nm: Option<string>) {
    var comps := Comps(path);
    && path == Absolute(comps)
    && (nm.None? ==> Descend(s, ROOT, comps) == Some(dir))
    && (nm.Some? ==>
          comps != [] && comps[|comps| - 1] == nm.value && Descend(s, ROOT, comps[..|comps| - 1]) == Some(dir))
  }

  /** The path of a held chain leads there: splitting it at its slashes and looking the names up from the root
      arrives at the directory; the name asked for comes last. */
  lemma {:induction false} PathLeads(s: State, dir: Id, c: seq<Id>, nm: Option<string>)
    requires TreeInv(s) && Line(s.parent, dir, c) && Last(c) == ROOT && ProperNames(s.name, c)
    requires nm.Some? ==> Proper(nm.value)
    ensures Leads(s, Shown(PathName(s.name, c, |c| - 1, Suffix(nm))), dir, nm)
  {
    hide TreeInv, Line, PathName, Names, Slashed, Comps, Descend;
    LineHead(s.parent, dir, c);
    var names := Names(s.name, c, |c| - 1);
    var comps := if nm.Some? then names + [nm.value] else names;
    PathText(s.name, c, |c| - 1, Suffix(nm));
    NamesProper(s.name, c, |c| - 1);
    NamesDescend(s, dir, c, |c| - 1);
    SuffixText(names, nm);
    SlashedStarts(comps);
    CompsSlashed(comps);
    assert nm.Some? ==> comps[..|comps| - 1] == names;
  }

  // The same, in the state with the hold added.
  lemma {:induction false} PathIs(s: State, s': State, dir: Id, c: seq<Id>, nm: Option<string>)
    requires TreeInv(s) && Line(s.parent, dir, c) && Last(c) == ROOT
    requires s' == s.(lock := s'.lock, holds := s'.holds) && s'.lock.Keys == s.lock.Keys
    ensures dir == ROOT && nm.None? ==> Shown(PathName(s.name, c, |c| - 1, Suffix(nm))) == "/"
    ensures ProperNames(s.name, c) && (nm.Some? ==> Proper(nm.value)) ==>
      Leads(s', Shown(PathName(s.name, c, |c| - 1, Suffix(nm))), dir, nm)
  {
    hide Entries, Acyclic, Leads, PathName, ProperNames;
    if dir == ROOT {
      LineUnique(s.parent, ROOT, c, [ROOT]);
      RootPath(s.name, c, Suffix(nm));
    }
    hide Line;
    if ProperNames(s.name, c) && (nm.Some? ==> Proper(nm.value)) {
      PathLeads(s', dir, c, nm);
    }
  }

  lemma TakenKeys(lock: map<Id, int>, h: Hold)
    ensures Taken(lock, h).Keys == lock.Keys
  {
  }

  lemma RootPath(name: map<Id, string>, c: seq<Id>, tail: string)
    requires c == [ROOT]
    ensures PathName(name, c, 0, tail) == tail
  {
  }

  lemma {:induction false} SuffixText(names: seq<string>, nm: Option<string>)
    ensures Slashed(names) + Suffix(nm) == Slashed(if nm.Some? then names + [nm.value] else names)
  {
    if nm.Some? {
      SlashedConcat(names, [nm.value]);
      assert [nm.value][1..] == [];
      assert Slashed([nm.value]) == "/" + nm.value;
    } else {
      assert Slashed(names) + "" == Slashed(names);
    }
  }

  // `n` is hashed exactly under its parent and name.
  ghost predicate HashedOnce(s: State, n: Id) {
    && n in s.name && n in s.parent && (s.parent[n], s.name[n]) in s.entry
    && forall k :: k in s.entry ==> (s.entry[k] == n <==> k == (s.parent[n], s.name[n]))
  }

  ghost predicate NotHashed(s: State, n: Id) {
    n !in s.name && n !in s.parent && forall k :: k in s.entry ==> s.entry[k] != n
  }

  ghost function ChainOf(s: State, n: Id): (c: seq<Id>)
    requires TreeInv(s) && n in s.lock
    ensures Line(s.parent, n, c) && c != [] && c[0] == n && Distinct(c) && forall m :: m in c ==> m in s.lock
  {
    assert HasLine(s.parent, n);
    var c := LineOf(s.parent, n);
    LineDistinct(s.parent, n, c);
    LineLive(s, n, c);
    c
  }

  // What `unref_node(c[0])` relies on along the chain `c`.
  ghost predicate Ready(s: State, c: seq<Id>) {
    && c != [] && Line(s.parent, c[0], c) && Distinct(c)
    && (forall i :: 0 <= i < |c| ==> c[i] in s.refctr && s.refctr[c[i]] > 0 && c[i] in s.lock && c[i] in s.nlookup)
    && (forall i :: 0 <= i < Doomed(s.refctr, c) ==> s.lock[c[i]] == 0)
    && (forall i :: 0 <= i < |c| - 1 ==> HashedOnce(s, c[i]))
    && NotHashed(s, c[|c| - 1])
  }

  lemma TreeHashed(s: State, n: Id)
    requires TreeInv(s)
    ensures n in s.parent ==> HashedOnce(s, n)
    ensures n !in s.parent ==> NotHashed(s, n)
  {
    hide Acyclic;
    if n in s.parent {
      EntryPresent(s, n);
      forall k | k in s.entry && s.entry[k] == n
        ensures k == (s.parent[n], s.name[n])
      {
      }
    }
  }

  lemma ReadyRefs(s: State, c: seq<Id>)
    requires c != [] && Keyed(s) && Conserved(s.entry, s.nlookup, s.refctr, Some(c[0])) && forall m :: m in c ==>
      m in s.lock
    ensures forall i :: 0 <= i < |c| ==> c[i] in s.refctr && s.refctr[c[i]] > 0 && c[i] in s.nlookup
  {
    hide Kids;
  }

  lemma {:induction false} InvReady(s: State, c: seq<Id>)
    requires c != [] && InvBut(s, Some(c[0])) && c[0] in s.lock && Line(s.parent, c[0], c)
    ensures Ready(s, c)
  {
    hide Acyclic, HoldInv, LockInv, Conserved, Entries, HashedOnce, NotHashed;
    FellKeepsInv(s, c);
    LineDistinct(s.parent, c[0], c);
    LineLive(s, c[0], c);
    ReadyRefs(s, c);
    forall i | 0 <= i < |c|
      ensures if i < |c| - 1 then HashedOnce(s, c[i]) else NotHashed(s, c[i])
    {
      LineSuffix(s.parent, c[0], c, i);
      TreeHashed(s, c[i]);
    }
  }

  ghost predicate Asked(s: State, dir: Id, nm: string, write: bool, w: Option<Id>) {
    TreeInv(s) && dir in s.lock && w == if write then Lookup(s, dir, nm) else None
  }

  lemma TryNoBuffer(s: State, t: Token, dir: Id, nm: string, write: bool)
    requires TreeInv(s) && dir in s.lock
    ensures TryWith(s, t, dir, nm, write, FailsAt(0)) == (s, ENOMEM)
  {
  }

  lemma TryBusy(s: State, t: Token, dir: Id, nm: string, write: bool, w: Id, m: Memory)
    requires Asked(s, dir, nm, write, Some(w)) && m != FailsAt(0)
    ensures w in s.lock
    ensures s.lock[w] != 0 ==> TryWith(s, t, dir, nm, write, m) == (s.(lock := MarkWaiting(s.lock, w)), EAGAIN)
  {
    hide Line, Acyclic;
    assert s.parent[w] == dir;
  }

  // How the climb through the chain `c` ends.
  ghost function Climbing(lock: map<Id, int>, c: seq<Id>, w: Option<Id>, m: Memory): Err
    requires c != []
  {
    if ClimbFails(lock, c, w, m) then ENOMEM
    else if Blocked(lock, c, w) then EAGAIN
    else if Last(c) != ROOT then ENOENT
    else Ok
  }

  lemma ClimbingIs(lock: map<Id, int>, c: seq<Id>, w: Option<Id>, m: Memory)
    requires c != []
    ensures ClimbFails(lock, c, w, m) <==> m.FailsAt? && 0 < m.n < |c| && !Blocked(lock, c[..m.n], w)
  {
  }

  lemma {:induction false} TryClimb(s: State, t: Token, dir: Id, nm: string, write: bool, w: Option<Id>, c: seq<Id>,
      m: Memory)
    requires Asked(s, dir, nm, write, w) && Line(s.parent, dir, c) && m != FailsAt(0)
    requires w.Some? ==> w.value in s.lock && s.lock[w.value] == 0
    ensures var h, err := Hold(dir, c, w), Climbing(s.lock, c, w, m);
            TryWith(s, t, dir, nm, write, m)
            == (if err == Ok then s.(lock := Taken(s.lock, h), holds := s.holds[t := h]) else s, err)
  {
    assert HasLine(s.parent, dir);
    LineUnique(s.parent, dir, c, LineOf(s.parent, dir));
    hide Line, Acyclic, Entries, ClimbFails;
  }

  // The lock words the climb starts from: the write-locked child is already taken.
  ghost predicate Base(s: State, w: Option<Id>, base: map<Id, int>) {
    if w.Some? then w.value in s.lock && s.lock[w.value] == 0 && base == s.lock[w.value := WRITE] else base == s.lock
  }

  lemma ClimbStops(s: State, base: map<Id, int>, c: seq<Id>, i: nat, w: Option<Id>)
    requires Base(s, w, base) && i < |c| - 1 && c[i] in base && base[c[i]] < 0
    ensures Blocked(s.lock, c, w)
  {
  }

  lemma ClimbBlocked(s: State, base: map<Id, int>, c: seq<Id>, i: nat, w: Option<Id>, m: Memory)
    requires Base(s, w, base) && i < |c| - 1 && c[i] in base && base[c[i]] < 0
    requires m.FailsAt? && m.n > 0 ==> m.n > i + 1
    ensures Climbing(s.lock, c, w, m) == EAGAIN
  {
    hide Blocked, ClimbFails;
    ClimbStops(s, base, c, i, w);
    if m.FailsAt? && 0 < m.n < |c| {
      ClimbStops(s, base, c[..m.n], i, w);
    }
    ClimbingIs(s.lock, c, w, m);
  }

  lemma ClimbOver(s: State, base: map<Id, int>, c: seq<Id>, w: Option<Id>, m: Memory)
    requires c != [] && Base(s, w, base) && forall n :: n in c ==> n in s.lock
    requires forall k :: 0 <= k < |c| - 1 ==> c[k] in base && base[c[k]] >= 0
    requires m.FailsAt? && m.n > 0 ==> m.n >= |c|
    ensures Climbing(s.lock, c, w, m) == if Last(c) != ROOT then ENOENT else Ok
  {
    hide Blocked;
    ClimbFree(s, base, c, w);
  }

  lemma ClimbStarved(s: State, base: map<Id, int>, c: seq<Id>, i: nat, w: Option<Id>)
    requires i < |c| - 1 && Base(s, w, base) && forall n :: n in c ==> n in s.lock
    requires forall k :: 0 <= k < i ==> c[k] in base && base[c[k]] >= 0
    ensures Climbing(s.lock, c, w, FailsAt(i + 1)) == ENOMEM
  {
    hide Blocked;
    ClimbFree(s, base, c[..i + 1], w);
  }

  lemma PathStart(name: map<Id, string>, c: seq<Id>, tail: string)
    ensures PathName(name, c, 0, tail) == tail
  {
  }

  lemma PathStep(name: map<Id, string>, c: seq<Id>, i: nat, tail: string)
    requires i < |c| && c[i] in name
    ensures PathName(name, c, i + 1, tail) == "/" + name[c[i]] + PathName(name, c, i, tail)
  {
  }

  lemma BaseKeys(s: State, w: Option<Id>, base: map<Id, int>)
    requires Base(s, w, base)
    ensures base.Keys == s.lock.Keys
  {
  }

  lemma ClimbFree(s: State, base: map<Id, int>, c: seq<Id>, w: Option<Id>)
    requires c != [] && Base(s, w, base) && forall m :: m in c ==> m in s.lock
    requires forall k :: 0 <= k < |c| - 1 ==> base[c[k]] >= 0
    ensures !Blocked(s.lock, c, w)
  {
  }

  // A climb that reached the root took exactly the locks of the path.
  lemma ClimbTakes(s: State, base: map<Id, int>, c: seq<Id>, w: Option<Id>)
    requires c != [] && Distinct(c) && Last(c) == ROOT && forall m :: m in c ==> m in s.lock
    requires Base(s, w, base) && forall k :: 0 <= k < |c| - 1 ==> base[c[k]] >= 0
    ensures Climbed(base, c, |c| - 1) == Taken(s.lock, Hold(c[0], c, w))
  {
    var h := Hold(c[0], c, w);
    forall n | n in s.lock
      ensures n in c[..|c| - 1] <==> Reads(h, n)
    {
      assert c == c[..|c| - 1] + [ROOT];
      if Reads(h, n) {
        var k :| 0 <= k < |c| && c[k] == n;
      }
    }
  }

  // Everything `unlock_path` asserts about a held path.
  lemma HeldReleasable(s: State, t: Token)
    requires Inv(s) && t in s.holds
    ensures var h := s.holds[t];
            && h.line != [] && Line(s.parent, h.dir, h.line) && Distinct(h.line) && Last(h.line) == ROOT
            && (forall m :: m in h.line ==> m in s.lock)
            && (forall k :: 0 <= k < |h.line| - 1 ==>
                  h.line[k] != ROOT && s.lock[h.line[k]] != 0 && s.lock[h.line[k]] != WAIT_OFFSET &&
                    s.lock[h.line[k]] != WRITE)
            && (h.wnode.Some? ==> h.wnode.value in s.lock && s.lock[h.wnode.value] == WRITE && h.wnode.value !in h.line)
  {
    hide Entries, Acyclic, Conserved;
    var h := s.holds[t];
    assert HoldOk(s.parent, s.nlookup, h);
    LineDistinct(s.parent, h.dir, h.line);
    hide Line;
    forall k | 0 <= k < |h.line| - 1
      ensures s.lock[h.line[k]] != 0 && s.lock[h.line[k]] != WAIT_OFFSET && s.lock[h.line[k]] != WRITE
    {
      assert t in Readers(s.holds, h.line[k]);
      LockWord(s.lock, s.holds, h.line[k]);
      ReadersBounded(s.holds, h.line[k]);
    }
    if h.wnode.Some? {
      var w := h.wnode.value;
      assert t in Writers(s.holds, w);
      LockWord(s.lock, s.holds, w);
      WriteHeldOutside(s, t, w);
    }
  }

  lemma FreedIsLowered(s: State, h: Hold)
    requires h.line != [] && Distinct(h.line) && Last(h.line) == ROOT
    requires h.wnode.Some? ==> h.wnode.value in s.lock && h.wnode.value !in h.line
    ensures Freed(s.lock, h) ==
            Lowered(if h.wnode.Some? then s.lock[h.wnode.value := 0] else s.lock, h.line, |h.line| - 1)
  {
    var c := h.line;
    assert c == c[..|c| - 1] + [ROOT];
    assert forall n :: n in s.lock ==> (n in c[..|c| - 1] <==> Reads(h, n));
  }

  lemma ReleaseIs(s: State, t: Token)
    requires t in s.holds
    ensures Release(s, t) == s.(lock := Freed(s.lock, s.holds[t]), holds := s.holds - {t})
  {
  }

  lemma TwoHolds(a: map<Token, Hold>, b: map<Token, Hold>, c: map<Token, Hold>, t1: Token, t2: Token)
    requires t1 != t2 && t1 !in a && t2 !in a
    requires b.Keys == a.Keys + {t1} && b - {t1} == a && c.Keys == b.Keys + {t2} && c - {t2} == b
    ensures c.Keys == a.Keys + {t1, t2} && c - {t1} - {t2} == a && c[t1] == b[t1]
  {
    assert c - {t1} - {t2} == c - {t2} - {t1};
    assert t1 in c - {t2};
  }

  lemma KernelDir(s: State, dir: Id, nm: string, write: bool)
    requires Inv(s) && KernelHolds(s, dir, nm, write)
    ensures TreeInv(s) && dir in s.lock
  {
  }

  lemma KernelFrame(s: State, s': State, dir: Id, nm: string, write: bool)
    requires KernelHolds(s, dir, nm, write) && s'.nlookup == s.nlookup && s'.entry == s.entry
    ensures KernelHolds(s', dir, nm, write)
  {
  }

  // What may fail in the attempts at two paths.
  datatype Luck = Luck(first: Memory, second: Memory)

  // An attempt at the path of `dir` for `t` has made `s'` of `s`.
  ghost predicate Tried(s: State, s': State, err: Err, t: Token, dir: Id) {
    && Inv(s') && s' == s.(lock := s'.lock, holds := s'.holds) && s'.lock.Keys == s.lock.Keys
    && (err == Ok ==> s'.holds.Keys == s.holds.Keys + {t} && s'.holds - {t} == s.holds && s'.holds[t].dir == dir)
    && (err != Ok ==> s'.holds == s.holds)
    && err != EBUSY
  }

  // `try_get_path` on behalf of the kernel.
  ghost function TryFor(s: State, t: Token, dir: Id, nm: string, write: bool, m: Memory): (r: (State, Err))
    requires Inv(s) && t !in s.holds && |s.holds| < INT_MAX - 1 && KernelHolds(s, dir, nm, write)
    ensures Tried(s, r.0, r.1, t, dir)
  {
    hide Inv, TreeInv, TryWith, KernelHolds;
    KernelDir(s, dir, nm, write);
    TryWithKeepsInv(s, t, dir, nm, write, m);
    TryWithEffect(s, t, dir, nm, write, m);
    TryWith(s, t, dir, nm, write, m)
  }

  // After one attempt the other can be made.
  lemma TriedNext(s: State, s1: State, t: Token, dir: Id, dir2: Id, nm: string, write: bool)
    requires Tried(s, s1, Ok, t, dir) && t !in s.holds && KernelHolds(s, dir2, nm, write)
    ensures Inv(s1) && |s1.holds| == |s.holds| + 1 && KernelHolds(s1, dir2, nm, write)
    ensures t in s1.holds && forall u :: u in s1.holds <==> u in s.holds || u == t
  {
    hide Inv;
    AddedSize(s.holds, s1.holds, t);
    KernelFrame(s, s1, dir2, nm, write);
  }

  // What an attempt at two paths makes of `s`.
  ghost predicate TriedBoth(s: State, s': State, err: Err, t1: Token, dir1: Id, t2: Token, dir2: Id) {
    && Inv(s') && s' == s.(lock := s'.lock, holds := s'.holds) && s'.lock.Keys == s.lock.Keys
    && (err != Ok ==> s'.holds == s.holds)
    && (err == Ok ==>
          && s'.holds.Keys == s.holds.Keys + {t1, t2} && s'.holds - {t1} - {t2} == s.holds
          && s'.holds[t1].dir == dir1 && s'.holds[t2].dir == dir2)
  }

  lemma BothTaken(s: State, s1: State, s2: State, t1: Token, dir1: Id, t2: Token, dir2: Id)
    requires t1 != t2 && t1 !in s.holds && t2 !in s.holds && Tried(s, s1, Ok, t1, dir1) && Tried(s1, s2, Ok, t2, dir2)
    ensures TriedBoth(s, s2, Ok, t1, dir1, t2, dir2)
  {
    hide Inv;
    TwoHolds(s.holds, s1.holds, s2.holds, t1, t2);
  }

  lemma BothUndone(s: State, s1: State, s2: State, err: Err, t1: Token, dir1: Id, t2: Token, dir2: Id)
    requires t1 !in s.holds && Tried(s, s1, Ok, t1, dir1) && Tried(s1, s2, err, t2, dir2) && err != Ok
    ensures t1 in s2.holds && TriedBoth(s, Release(s2, t1), err, t1, dir1, t2, dir2)
  {
    hide Inv, Freed;
    ReleaseKeepsInv(s2, t1);
    ReleaseKeys(s2, t1);
  }

  // `try_get_path2`: the second path is tried once the first is held; if that fails the first is given back.
  ghost function TryBoth(s: State, t1: Token, dir1: Id, nm1: string, write1: bool,
                         t2: Token, dir2: Id, nm2: string, write2: bool, luck: Luck): (r: (State, Err))
    requires Inv(s) && t1 !in s.holds && t2 !in s.holds && t1 != t2 && |s.holds| < INT_MAX - 2
    requires KernelHolds(s, dir1, nm1, write1) && KernelHolds(s, dir2, nm2, write2)
    ensures TriedBoth(s, r.0, r.1, t1, dir1, t2, dir2)
  {
    hide Inv, Tried, TryFor, KernelHolds, Release, TriedBoth;
    var (s1, err1) := TryFor(s, t1, dir1, nm1, write1, luck.first);
    if err1 != Ok then
      OneFailed(s, s1, err1, t1, dir1, t2, dir2);
      (s1, err1)
    else
      TriedNext(s, s1, t1, dir1, dir2, nm2, write2);
      var (s2, err2) := TryFor(s1, t2, dir2, nm2, write2, luck.second);
      if err2 == Ok then
        BothTaken(s, s1, s2, t1, dir1, t2, dir2);
        (s2, Ok)
      else
        BothUndone(s, s1, s2, err2, t1, dir1, t2, dir2);
        (Release(s2, t1), err2)
  }

  lemma OneFailed(s: State, s1: State, err: Err, t1: Token, dir1: Id, t2: Token, dir2: Id)
    requires Tried(s, s1, err, t1, dir1) && err != Ok
    ensures TriedBoth(s, s1, err, t1, dir1, t2, dir2)
  {
    hide Inv;
  }

  lemma TryForIs(s: State, t: Token, dir: Id, nm: string, write: bool, m: Memory)
    requires Inv(s) && t !in s.holds && |s.holds| < INT_MAX - 1 && KernelHolds(s, dir, nm, write)
    ensures TreeInv(s) && dir in s.lock && TryFor(s, t, dir, nm, write, m) == TryWith(s, t, dir, nm, write, m)
    ensures Tried(s, TryWith(s, t, dir, nm, write, m).0, TryWith(s, t, dir, nm, write, m).1, t, dir)
  {
    hide TreeInv, TryWith, KernelHolds, Tried;
    KernelDir(s, dir, nm, write);
  }

  // Where a path leads depends on the name table alone.
  lemma {:induction false} DescendFrame(s: State, s': State, n: Id, comps: seq<string>)
    requires s'.entry == s.entry
    ensures Descend(s', n, comps) == Descend(s, n, comps)
    decreases |comps|
  {
    if comps != [] && Lookup(s, n, comps[0]).Some? {
      DescendFrame(s, s', Lookup(s, n, comps[0]).value, comps[1..]);
    }
  }

  lemma {:induction false} LeadsFrame(s: State, s': State, path: string, dir: Id, nm: Option<string>)
    requires s'.entry == s.entry
    ensures Leads(s', path, dir, nm) <==> Leads(s, path, dir, nm)
  {
    hide Descend, Comps;
    var comps := Comps(path);
    DescendFrame(s, s', ROOT, comps);
    if comps != [] {
      DescendFrame(s, s', ROOT, comps[..|comps| - 1]);
    }
  }

  lemma HoldKept(s: State, s1: State, s2: State, err: Err, t1: Token, dir1: Id, t2: Token, dir2: Id)
    requires t1 != t2 && t2 !in s1.holds && Tried(s, s1, Ok, t1, dir1) && Tried(s1, s2, err, t2, dir2)
    ensures Inv(s2) && t1 in s2.holds && s2.holds[t1] == s1.holds[t1] && s2.holds[t1].dir == dir1
  {
    hide Inv;
    assert t1 in s1.holds;
    assert err == Ok ==> t1 in s2.holds - {t2} && (s2.holds - {t2})[t1] == s2.holds[t1];
  }

  lemma BothInv(s: State, s': State, err: Err, t1: Token, dir1: Id, t2: Token, dir2: Id)
    requires TriedBoth(s, s', err, t1, dir1, t2, dir2)
    ensures Inv(s') && (err == Ok ==> t1 in s'.holds && t2 in s'.holds)
  {
    hide Inv;
  }

  lemma ReleaseKeys(s: State, t: Token)
    requires t in s.holds
    ensures Release(s, t) == s.(lock := Release(s, t).lock, holds := s.holds - {t})
    ensures Release(s, t).lock.Keys == s.lock.Keys
  {
  }

  lemma AddedSize(a: map<Token, Hold>, b: map<Token, Hold>, t: Token)
    requires b.Keys == a.Keys + {t} && t !in a
    ensures |b| == |a| + 1
  {
    assert |b.Keys| == |a.Keys| + 1;
  }

  // ------------------------------------------------------------------ the cascade, as the code runs it

  // `n` is out of the name table, but its own fields are still set.
  ghost function Cut(s: State, n: Id): State
    requires n in s.parent && n in s.name
  {
    s.(entry := s.entry - {(s.parent[n], s.name[n])})
  }

  ghost function Bare(s: State, n: Id): State {
    s.(name := s.name - {n}, parent := s.parent - {n})
  }

  // `unhash_name(c[0])`: the parent is dereferenced while the node's own fields are still set.
  ghost function Unhashed(s: State, c: seq<Id>): State
    requires c != []
  {
    if c[0] in s.name && c[0] in s.parent then Bare(Fell(Cut(s, c[0]), c[1..]), c[0]) else s
  }

  ghost function Unreferenced(s: State, n: Id): State {
    s.(refctr := s.refctr[n := 0])
  }

  lemma ReadyHead(s: State, c: seq<Id>)
    requires Ready(s, c) && s.refctr[c[0]] == 1
    ensures c != [] && c[0] in s.lock && s.lock[c[0]] == 0 && c[0] in s.refctr
    ensures c[0] in s.name <==> |c| > 1
    ensures c[0] in s.parent <==> |c| > 1
    ensures |c| > 1 ==> s.parent[c[0]] == c[1]
  {
    LineSuffix(s.parent, c[0], c, 0);
    assert Doomed(s.refctr, c) > 0;
  }

  lemma ReadyTail(s: State, c: seq<Id>)
    requires Ready(s, c) && |c| > 1 && c[0] in s.parent && c[0] in s.name && s.refctr[c[0]] == 1
    ensures Ready(Cut(Unreferenced(s, c[0]), c[0]), c[1..])
  {
    var d, t := Cut(Unreferenced(s, c[0]), c[0]), c[1..];
    LineSuffix(s.parent, c[0], c, 1);
    DoomedFrame(s.refctr, d.refctr, t);
    assert forall i :: 0 <= i < |t| ==> t[i] == c[i + 1];
    forall i | 0 <= i < |t| - 1
      ensures HashedOnce(d, t[i])
    {
      assert HashedOnce(s, c[i + 1]) && HashedOnce(s, c[0]);
    }
  }

  lemma FellOnlyDrops(s: State, c: seq<Id>)
    requires c != [] && c[0] in s.refctr && s.refctr[c[0]] != 1
    ensures Fell(s, c) == s.(refctr := s.refctr[c[0] := s.refctr[c[0]] - 1])
  {
    RemoveNothing(s);
    assert Elements(c[..0]) == {};
  }

  // Removing the record afterwards gives the same state as removing it first.
  lemma CascadeUnfold(s: State, c: seq<Id>)
    requires Ready(s, c) && s.refctr[c[0]] == 1
    ensures var u := Unhashed(Unreferenced(s, c[0]), c);
            u.(nlookup := u.nlookup - {c[0]}, refctr := u.refctr - {c[0]}, lock := u.lock - {c[0]}) == Fell(s, c)
  {
    hide Line, Ready, Fell, Unhashed;
    ReadyHead(s, c);
    FellUnfold2(s, c);
    if |c| > 1 {
      CascadeOn(s, c);
    } else {
      CascadeEnd(s, c);
    }
  }

  lemma FellUnfold2(s: State, c: seq<Id>)
    requires Ready(s, c) && s.refctr[c[0]] == 1
    ensures Fell(s, c) == Fell(Remove(s, {c[0]}), c[1..]) && c[0] !in c[1..]
    ensures |c| > 1 ==> HashedOnce(s, c[0])
  {
    hide Line, Fell;
    FellUnfold(s, c);
  }

  lemma CascadeOn(s: State, c: seq<Id>)
    requires |c| > 1 && c[0] !in c[1..] && c[0] in s.name && c[0] in s.parent && HashedOnce(s, c[0]) && c[0] in s.refctr
    ensures var u := Unhashed(Unreferenced(s, c[0]), c);
            u.(nlookup := u.nlookup - {c[0]}, refctr := u.refctr - {c[0]}, lock := u.lock - {c[0]})
            == Fell(Remove(s, {c[0]}), c[1..])
  {
    hide Fell;
    var n := c[0];
    var d := Cut(Unreferenced(s, n), n);
    assert Remove(d, {n}) == Remove(s, {n}) by {
      assert s.refctr[n := 0] - {n} == s.refctr - {n};
      assert Remove(d, {n}).entry == Remove(s, {n}).entry;
    }
    FellCommutes(d, c[1..], n);
    FellNoEntry(d, c[1..], n);
  }

  lemma CascadeEnd(s: State, c: seq<Id>)
    requires |c| == 1 && c[0] !in s.name && c[0] !in s.parent && c[0] in s.refctr && Ready(s, c)
    ensures var u := Unhashed(Unreferenced(s, c[0]), c);
            u.(nlookup := u.nlookup - {c[0]}, refctr := u.refctr - {c[0]}, lock := u.lock - {c[0]})
            == Fell(Remove(s, {c[0]}), c[1..])
  {
    hide Line;
    var n := c[0];
    assert NotHashed(s, n);
    assert Elements([]) == {} && c[1..] == [];
    RemoveNothing(Remove(s, {n}));
    assert Remove(s, {n}).entry == s.entry;
    assert s.refctr[n := 0] - {n} == s.refctr - {n};
    assert s.parent - {n} == s.parent && s.name - {n} == s.name;
  }

  lemma FellCommutes(s: State, c: seq<Id>, n: Id)
    requires n !in c
    ensures Remove(Fell(s, c), {n}) == Fell(Remove(s, {n}), c)
  {
    DoomedFrame(s.refctr, (s.refctr - {n}), c);
    var m := Doomed(s.refctr, c);
    var dead := Elements(c[..m]);
    RemoveTwice(s, {n}, dead);
    RemoveTwice(s, dead, {n});
    assert {n} + dead == dead + {n};
  }

  // If `n` is not hashed, it is not hashed after the cascade either, and removing it touches no entry.
  lemma FellNoEntry(s: State, c: seq<Id>, n: Id)
    requires forall k :: k in s.entry ==> s.entry[k] != n
    ensures var f := Fell(s, c);
            Remove(f, {n}) ==
            Bare(f, n).(nlookup := f.nlookup - {n}, refctr := f.refctr - {n}, lock := f.lock - {n})
  {
    var f := Fell(s, c);
    assert Remove(f, {n}).entry == f.entry;
  }

  lemma FindReady(s: State, dir: Id, nm: string, newId: Id)
    requires Inv(s) && dir in s.lock && newId !in s.lock
    ensures dir in s.refctr && dir != newId && newId !in s.nlookup && newId !in s.refctr
    ensures Lookup(s, dir, nm).Some? ==> Lookup(s, dir, nm).value in s.nlookup && Lookup(s, dir, nm).value in s.refctr
    ensures Lookup(s, dir, nm).Some? ==>
              var n := Lookup(s, dir, nm).value;
              n in IncLookup(s, n).nlookup && IncLookup(s, n).nlookup[n] > 0 &&
                Lookup(IncLookup(s, n), dir, nm) == Some(n)
    ensures Inv(Find(s, dir, nm, newId))
  {
    hide Line, Acyclic, Conserved, HoldInv, LockInv, Entries;
    FindKeepsInv(s, dir, nm, newId);
  }

  // A node as `alloc_node` returns it: all fields zero.
  function Zeroed(s: State, n: Id): State {
    s.(nlookup := s.nlookup[n := 0], refctr := s.refctr[n := 0], lock := s.lock[n := 0])
  }

  lemma FindOrder(s: State, dir: Id, nm: string, newId: Id)
    requires Lookup(s, dir, nm).None? && dir in s.refctr && newId != dir
    ensures var a := Attach(Zeroed(s, newId), newId, dir, nm);
            && newId in a.nlookup && newId in a.refctr && IncLookup(a, newId) == Find(s, dir, nm, newId)
            && Lookup(IncLookup(a, newId), dir, nm) == Some(newId)
            && newId in IncLookup(a, newId).nlookup && IncLookup(a, newId).nlookup[newId] == 1
  {
    var a := IncLookup(Attach(Zeroed(s, newId), newId, dir, nm), newId);
    assert a.nlookup == s.nlookup[newId := 1];
    CountsCommute(s.refctr, newId, dir);
  }

  lemma CountsCommute(m: map<Id, int>, n: Id, dir: Id)
    requires dir in m && n != dir
    ensures var m' := m[n := 0][dir := m[dir] + 1]; m'[n := m'[n] + 1] == m[n := 1][dir := m[dir] + 1]
  {
  }

  lemma ForgetReady(s: State, n: Id, k: nat) returns (c: seq<Id>)
    requires Inv(s) && MayForget(s, n, k)
    ensures TreeInv(s) && Inv(Forget(s, n, k)) && c != [] && c[0] == n
    ensures var s1 := s.(nlookup := s.nlookup[n := s.nlookup[n] - k]);
            if k == s.nlookup[n] then Ready(s1, c) && Forget(s, n, k) == Fell(s1, c) else Forget(s, n, k) == s1
  {
    hide Line, Conserved, HoldInv, LockInv, Entries, Ready, Fell;
    ForgetKeepsInv(s, n, k);
    ForgetDropsRef(s, n, k);
    var s1 := s.(nlookup := s.nlookup[n := s.nlookup[n] - k]);
    c := ChainOf(s, n);
    if k == s.nlookup[n] {
      InvReady(s1, c);
      assert HasLine(s.parent, n);
      LineUnique(s.parent, n, c, LineOf(s.parent, n));
    }
  }

  lemma FellBare(s: State, c: seq<Id>, n: Id)
    ensures Bare(Fell(s, c), n) == Fell(Bare(s, n), c)
  {
    var dead := Elements(c[..Doomed(s.refctr, c)]);
    assert s.parent - dead - {n} == s.parent - {n} - dead;
    assert s.name - dead - {n} == s.name - {n} - dead;
  }

  lemma ReadyCut(s: State, w: Id, c: seq<Id>)
    requires w in s.parent && w in s.name && w !in c && Ready(Bare(s, w), c)
    ensures Ready(s, c)
  {
    LineFrame(s.parent - {w}, s.parent, c[0], c);
    hide Line;
    assert c[|c| - 1] in c;
    forall i | 0 <= i < |c| - 1
      ensures HashedOnce(s, c[i])
    {
      assert HashedOnce(Bare(s, w), c[i]);
      assert c[i] in c;
    }
  }

  // The chain along which `unhash_name` of a write-held entry runs.
  lemma UnhashChain(s: State, t: Token, w: Id) returns (c: seq<Id>)
    requires Inv(s) && t in s.holds && s.holds[t].wnode == Some(w) && w in s.parent
    ensures c != [] && |c| > 1 && c[0] == w && w in s.name && s.parent[w] == c[1]
    ensures Ready(Cut(s, w), c[1..])
    ensures Unhash(s, w) == Unhashed(s, c)
  {
    hide Acyclic, Conserved, HoldInv, LockInv, Entries;
    WriteHeldOutside(s, t, w);
    DetachKeepsInvBut(s, w);
    c := ChainOf(s, w);
    LineSuffix(s.parent, w, c, 0);
    LineSuffix(s.parent, w, c, 1);
    var d, b := s.parent[w], Detach(s, w);
    EntryPresent(s, w);
    assert w !in c[1..];
    LineFrame(s.parent, b.parent, d, c[1..]);
    InvReady(b, c[1..]);
    assert Bare(Cut(s, w), w) == b;
    ReadyCut(Cut(s, w), w, c[1..]);
    UnhashIs(s, w, c[1..]);
    FellBare(Cut(s, w), c[1..], w);
  }

  lemma {:induction false} UnhashIs(s: State, w: Id, c: seq<Id>)
    requires TreeInv(s) && w in s.parent && Line(Detach(s, w).parent, s.parent[w], c)
    ensures Unhash(s, w) == Fell(Detach(s, w), c)
  {
    DetachKeepsTree(s, w);
    EntryPresent(s, w);
    var d, b := s.parent[w], Detach(s, w);
    assert HasLine(b.parent, d);
    LineUnique(b.parent, d, c, LineOf(b.parent, d));
  }

  class Fuse {
    var parent: map<Id, Id>
    var name: map<Id, string>
    var entry: map<(Id, string), Id>
    var nlookup: map<Id, nat>
    var refctr: map<Id, int>
    var treelock: map<Id, int>
    ghost var holds: map<Token, Hold>

    ghost function View(): State
      reads this
    {
      State(parent, name, entry, nlookup, refctr, treelock, holds)
    }

    constructor ()
      ensures View() == State(map[], map[], map[], map[ROOT := 1], map[ROOT := 1], map[ROOT := 0], map[])
    {
      parent, name, entry := map[], map[], map[];
      nlookup, refctr, treelock := map[ROOT := 1], map[ROOT := 1], map[ROOT := 0];
      holds := map[];
    }

    // ---------------------------------------------------------------- paths

    method LookupNode(dir: Id, nm: string) returns (r: Option<Id>)
      ensures r == Lookup(View(), dir, nm)
    {
      r := if (dir, nm) in entry then Some(entry[(dir, nm)]) else None;
    }

    // Giving back one read lock; the last reader clears a waiting mark.
    method Decrement(node: Id)
      requires node in treelock
      modifies this`treelock
      ensures treelock == old(treelock)[node := Unread(old(treelock)[node])]
    {
      treelock := treelock[node := treelock[node] - 1];
      if treelock[node] == WAIT_OFFSET {
        treelock := treelock[node := 0];
      }
    }

    // `unlock_path`: `c` is the chain of `nodeid` and `j` the position where the walk ends.
    method Unlock(nodeid: Id, wnode: Option<Id>, end: Option<Id>, ghost c: seq<Id>, ghost j: nat)
      requires Line(parent, nodeid, c) && Distinct(c) && j < |c| && (end == Some(c[j]) || c[j] == ROOT)
      requires forall k :: 0 <= k < j ==> end != Some(c[k]) && c[k] != ROOT
      requires wnode.Some? ==> wnode.value in treelock && treelock[wnode.value] == WRITE && wnode.value !in c[..j]
      requires forall k :: 0 <= k < j ==>
                 c[k] in treelock && treelock[c[k]] != 0 && treelock[c[k]] != WAIT_OFFSET && treelock[c[k]] != WRITE
      modifies this`treelock
      ensures treelock == Lowered(if wnode.Some? then old(treelock)[wnode.value := 0] else old(treelock), c, j)
    {
      if wnode.Some? {
        assert treelock[wnode.value] == WRITE;
        treelock := treelock[wnode.value := 0];
      }
      hide Line, Lowered, Distinct, Unread;
      LineHead(parent, nodeid, c);
      ghost var base := treelock;
      var node := nodeid;
      ghost var i := 0;
      LowerNone(base, c);
      while Some(node) != end && node != ROOT
        invariant i <= j && node == c[i]
        invariant treelock == Lowered(base, c, i)
        decreases j - i
      {
        assert i < j;
        LineSuffix(parent, nodeid, c, i);
        LowerOne(base, c, i);
        assert treelock[node] != 0 && treelock[node] != WAIT_OFFSET && treelock[node] != WRITE;
        Decrement(node);
        node := parent[node];
        i := i + 1;
      }
    }

    // `try_get_path` with locking.
    method TryGetPath(ghost t: Token, nodeid: Id, nm: Option<string>, write: bool, memory: Memory)
      returns (err: Err, path: string, wnode: Option<Id>)
      requires TreeInv(View()) && nodeid in treelock && t !in holds && (write ==> nm.Some?)
      modifies this`treelock, this`holds
      ensures (View(), err) == TryWith(old(View()), t, nodeid, Key(nm), write, memory)
      ensures err == Ok ==>
                && t in holds && wnode == holds[t].wnode && holds[t].dir == nodeid
                && (nodeid == ROOT && nm.None? ==> path == "/")
                && (ProperNames(name, holds[t].line) && (nm.Some? ==> Proper(nm.value)) ==>
                  Leads(View(), path, nodeid, nm))
    {
      hide TryWith, Taken, Blocked, Line, Acyclic, Entries, PathName, Leads, ProperNames, Shown;
      ghost var s := View();
      ghost var key := Key(nm);
      ghost var c := ChainOf(s, nodeid);
      path, wnode := "", None;
      TryNoBuffer(s, t, nodeid, key, write);
      if memory == FailsAt(0) {
        return ENOMEM, path, wnode;
      }
      if nm.Some? {
        path := "/" + nm.value + path;
      }
      if write {
        wnode := LookupNode(nodeid, nm.value);
        if wnode.Some? {
          TryBusy(s, t, nodeid, key, write, wnode.value, memory);
          if treelock[wnode.value] != 0 {
            if treelock[wnode.value] > 0 {
              treelock := treelock[wnode.value := treelock[wnode.value] + WAIT_OFFSET];
            }
            return EAGAIN, path, wnode;
          }
          treelock := treelock[wnode.value := WRITE];
        }
      }
      assert path == Suffix(nm);
      err, path := Acquire(s, t, nodeid, nm, write, wnode, path, memory, c);
    }

    // The rest of `try_get_path`, once the entry is write-locked: the climb, and the path it gives.
    method Acquire(ghost s: State, ghost t: Token, nodeid: Id, ghost nm: Option<string>, ghost write: bool,
                   wnode: Option<Id>, tail: string, memory: Memory, ghost c: seq<Id>)
      returns (err: Err, path: string)
      requires Asked(s, nodeid, Key(nm), write, wnode) && memory != FailsAt(0) && t !in s.holds && tail == Suffix(nm)
      requires View() == s.(lock := treelock) && Base(s, wnode, treelock)
      requires c != [] && Line(s.parent, nodeid, c) && Distinct(c) && forall m :: m in c ==> m in s.lock
      modifies this`treelock, this`holds
      ensures (View(), err) == TryWith(s, t, nodeid, Key(nm), write, memory)
      ensures err == Ok ==>
                && t in holds && wnode == holds[t].wnode && holds[t].dir == nodeid
                && (nodeid == ROOT && nm.None? ==> path == "/")
                && (ProperNames(name, holds[t].line) && (nm.Some? ==> Proper(nm.value)) ==>
                  Leads(View(), path, nodeid, nm))
    {
      hide TryWith, Taken, Blocked, Line, Acyclic, Entries, PathName, Leads, ProperNames, Shown, ClimbFails;
      TryClimb(s, t, nodeid, Key(nm), write, wnode, c, memory);
      err, path := Climb(s, nodeid, wnode, tail, memory, c);
      if err == Ok {
        path := Shown(path);
        holds := holds[t := Hold(nodeid, c, wnode)];
        TakenKeys(s.lock, Hold(nodeid, c, wnode));
        PathIs(s, View(), nodeid, c, nm);
      }
    }

    // The climb of `try_get_path` from `nodeid` to the root, undone if it fails.
    method Climb(ghost s: State, nodeid: Id, wnode: Option<Id>, tail: string, memory: Memory, ghost c: seq<Id>)
      returns (err: Err, path: string)
      requires Keyed(s) && parent == s.parent && name == s.name && Base(s, wnode, treelock)
      requires Line(parent, nodeid, c) && Distinct(c) && forall m :: m in c ==> m in s.lock
      modifies this`treelock
      ensures err == Climbing(s.lock, c, wnode, memory)
      ensures treelock == if err == Ok then Taken(s.lock, Hold(nodeid, c, wnode)) else s.lock
      ensures err == Ok ==> path == PathName(name, c, |c| - 1, tail)
    {
      hide Taken, Blocked, Line, Climbed, Distinct, ClimbFails, Climbing, Base, PathName;
      PathStart(name, c, tail);
      LineHead(parent, nodeid, c);
      ghost var base := treelock;
      BaseKeys(s, wnode, base);
      path := tail;
      var node, i := nodeid, 0;
      ClimbNone(base, c);
      err := Ok;
      while node != ROOT && err == Ok
        invariant i < |c| && node == c[i]
        invariant forall k :: 0 <= k < i ==> c[k] != ROOT && base[c[k]] >= 0
        invariant treelock == Climbed(base, c, i)
        invariant path == PathName(name, c, i, tail) || err != Ok
        invariant memory.FailsAt? && memory.n > 0 && err == Ok ==> memory.n > i
        invariant err != Ok ==> err == Climbing(s.lock, c, wnode, memory)
        decreases |c| - i, err == Ok
      {
        LineSuffix(parent, nodeid, c, i);
        if node !in name || node !in parent {
          ClimbOver(s, base, c, wnode, memory);
          err := ENOENT;
        } else if memory == FailsAt(i + 1) {
          ClimbStarved(s, base, c, i, wnode);
          err := ENOMEM;
        } else {
          ClimbOne(base, c, i);
          path := "/" + name[node] + path;
          PathStep(name, c, i, tail);
          if treelock[node] < 0 {
            ClimbBlocked(s, base, c, i, wnode, memory);
            err := EAGAIN;
          } else {
            treelock := treelock[node := treelock[node] + 1];
            node := parent[node];
            i := i + 1;
          }
        }
      }
      if err != Ok {
        Unwind(s, nodeid, wnode, node, base, c, i);
        return;
      }
      LineSuffix(parent, nodeid, c, i);
      ClimbOver(s, base, c, wnode, memory);
      ClimbTakes(s, base, c, wnode);
    }

    // The failure exit of `try_get_path`: the climb so far is undone exactly.
    method Unwind(ghost s: State, nodeid: Id, wnode: Option<Id>, end: Id, ghost base: map<Id, int>, ghost c: seq<Id>,
        ghost i: nat)
      requires Line(parent, nodeid, c) && Distinct(c) && i < |c| && end == c[i]
      requires forall k :: 0 <= k < i ==> c[k] != ROOT && c[k] in base && base[c[k]] >= 0
      requires treelock == Climbed(base, c, i)
      requires Base(s, wnode, base)
      modifies this`treelock
      ensures treelock == s.lock
    {
      assert forall k :: 0 <= k < i ==> c[k] in c[..i];
      Unlock(nodeid, wnode, Some(end), c, i);
    }

    // `unlock_path` on a held path: none of its assertions fails, and the path's locks are given back.
    method FreePath(ghost t: Token, nodeid: Id, wnode: Option<Id>)
      requires Inv(View()) && t in holds && holds[t].dir == nodeid && holds[t].wnode == wnode
      modifies this`treelock, this`holds
      ensures View() == Release(old(View()), t)
      ensures Inv(View())
    {
      hide Inv, Line, Release, Freed, Lowered, Distinct;
      ghost var s := View();
      HeldReleasable(s, t);
      ReleaseKeepsInv(s, t);
      ghost var h := holds[t];
      Unlock(nodeid, wnode, None, h.line, |h.line| - 1);
      FreedIsLowered(s, h);
      holds := holds - {t};
      ReleaseIs(s, t);
    }

    // `try_get_path2`: both paths or neither.
    method TryGetPath2(ghost t1: Token, nodeid1: Id, nm1: Option<string>, write1: bool,
                       ghost t2: Token, nodeid2: Id, nm2: Option<string>, write2: bool, luck: Luck)
      returns (err: Err, path1: string, path2: string, wnode1: Option<Id>, wnode2: Option<Id>)
      requires Inv(View()) && t1 !in holds && t2 !in holds && t1 != t2 && |holds| < INT_MAX - 2
      requires (write1 ==> nm1.Some?) && (write2 ==> nm2.Some?)
      requires KernelHolds(View(), nodeid1, Key(nm1), write1) && KernelHolds(View(), nodeid2, Key(nm2), write2)
      modifies this`treelock, this`holds
      ensures Inv(View())
      ensures (View(), err) == TryBoth(old(View()), t1, nodeid1, Key(nm1), write1, t2, nodeid2, Key(nm2), write2, luck)
      ensures err == Ok ==> t1 in holds && holds[t1].wnode == wnode1 && t2 in holds && holds[t2].wnode == wnode2
      ensures err == Ok && ProperNames(name, holds[t1].line) && (nm1.Some? ==> Proper(nm1.value)) ==>
        Leads(View(), path1, nodeid1, nm1)
      ensures err == Ok && ProperNames(name, holds[t2].line) && (nm2.Some? ==> Proper(nm2.value)) ==>
        Leads(View(), path2, nodeid2, nm2)
    {
      hide Inv, TreeInv, TryWith, TryFor, Release, KernelHolds, Tried, TriedBoth, Leads, ProperNames;
      ghost var s := View();
      KernelDir(s, nodeid1, Key(nm1), write1);
      TryForIs(s, t1, nodeid1, Key(nm1), write1, luck.first);
      wnode2, path2 := None, "";
      err, path1, wnode1 := TryGetPath(t1, nodeid1, nm1, write1, luck.first);
      if err == Ok {
        ghost var s1 := View();
        TriedNext(s, s1, t1, nodeid1, nodeid2, Key(nm2), write2);
        KernelDir(s1, nodeid2, Key(nm2), write2);
        TryForIs(s1, t2, nodeid2, Key(nm2), write2, luck.second);
        err, path2, wnode2 := TryGetPath(t2, nodeid2, nm2, write2, luck.second);
        ghost var s2 := View();
        HoldKept(s, s1, s2, err, t1, nodeid1, t2, nodeid2);
        LeadsFrame(s1, s2, path1, nodeid1, nm1);
        if err != Ok {
          FreePath(t1, nodeid1, wnode1);
        }
      }
      assert (View(), err) == TryBoth(s, t1, nodeid1, Key(nm1), write1, t2, nodeid2, Key(nm2), write2, luck);
      BothInv(s, View(), err, t1, nodeid1, t2, nodeid2);
    }

    // ---------------------------------------------------------------- references

    // `unref_node`; `c` is the parent chain of `node`.
    method UnrefNode(node: Id, ghost c: seq<Id>)
      requires Ready(View(), c) && c[0] == node
      modifies this
      ensures View() == Fell(old(View()), c)
      decreases |c|, 2
    {
      hide Line;
      ghost var s := View();
      assert refctr[node] > 0;
      refctr := refctr[node := refctr[node] - 1];
      if refctr[node] == 0 {
        DeleteNode(node, s, c);
      } else {
        FellOnlyDrops(s, c);
      }
    }

    // `delete_node`
    method DeleteNode(node: Id, ghost s: State, ghost c: seq<Id>)
      requires Ready(s, c) && c[0] == node && s.refctr[node] == 1
      requires View() == Unreferenced(s, node)
      modifies this
      ensures View() == Fell(s, c)
      decreases |c|, 1
    {
      hide Line, Fell, Ready;
      ReadyHead(s, c);
      assert treelock[node] == 0;
      if |c| > 1 {
        ReadyTail(s, c);
      }
      UnhashName(node, c);
      nlookup := nlookup - {node};
      refctr := refctr - {node};
      treelock := treelock - {node};
      CascadeUnfold(s, c);
    }

    // `unhash_name`; `c` is the parent chain of `node`.
    method UnhashName(node: Id, ghost c: seq<Id>)
      requires c != [] && c[0] == node && (node in name <==> |c| > 1) && (node in parent <==> |c| > 1)
      requires |c| > 1 ==> parent[node] == c[1] && Ready(Cut(View(), node), c[1..])
      modifies this
      ensures View() == Unhashed(old(View()), c)
      decreases |c|, 0
    {
      hide Line, Fell, Ready;
      if node in name {
        entry := entry - {(parent[node], name[node])};
        UnrefNode(parent[node], c[1..]);
        name := name - {node};
        parent := parent - {node};
      }
    }

    // ---------------------------------------------------------------- operations

    // `find_node` with a name; `newId` is what `next_id` returns, `allocOk` the outcome of the allocations.
    method FindNode(dir: Id, nm: string, newId: Id, allocOk: bool) returns (r: Option<Id>)
      requires Inv(View()) && dir in treelock && newId !in treelock
      modifies this
      ensures Inv(View())
      ensures r.None? <==> Lookup(old(View()), dir, nm).None? && !allocOk
      ensures r.None? ==> View() == old(View())
      ensures r.Some? ==> View() == Find(old(View()), dir, nm, newId) && r == Some(Found(old(View()), dir, nm, newId))
      ensures r.Some? ==>
                && Lookup(View(), dir, nm) == r && Tally(View(), r.value) == Tally(old(View()), r.value) + 1
                && forall n :: n != r.value ==> Tally(View(), n) == Tally(old(View()), n)
    {
      hide Inv, Attach, IncLookup;
      ghost var s := View();
      FindReady(s, dir, nm, newId);
      var found := LookupNode(dir, nm);
      var node := newId;
      if found.Some? {
        node := found.value;
      } else {
        if !allocOk {
          return None;
        }
        treelock, nlookup, refctr := treelock[node := 0], nlookup[node := 0], refctr[node := 0];
        HashName(node, dir, nm);
        FindOrder(s, dir, nm, newId);
      }
      IncNlookup(node);
      r := Some(node);
      FindEffect(s, dir, nm, newId);
    }

    // `hash_name`, past the copy of the name.
    method HashName(node: Id, dir: Id, nm: string)
      requires dir in refctr
      modifies this
      ensures View() == Attach(old(View()), node, dir, nm)
    {
      name := name[node := nm];
      refctr := refctr[dir := refctr[dir] + 1];
      parent := parent[node := dir];
      entry := entry[(dir, nm) := node];
    }

    // `inc_nlookup`
    method IncNlookup(node: Id)
      requires node in nlookup && node in refctr
      modifies this
      ensures View() == IncLookup(old(View()), node)
      ensures nlookup == old(nlookup)[node := old(nlookup)[node] + 1]
    {
      if nlookup[node] == 0 {
        refctr := refctr[node := refctr[node] + 1];
      }
      nlookup := nlookup[node := nlookup[node] + 1];
    }

    // `forget_node`, once the node is not both locked and about to lose its last lookup.
    method ForgetNode(nodeid: Id, k: nat)
      requires Inv(View()) && MayForget(View(), nodeid, k)
      modifies this
      ensures View() == Forget(old(View()), nodeid, k) && Inv(View())
    {
      hide Inv, Line, Ready, Fell, Forget;
      ghost var s := View();
      ghost var c := ForgetReady(s, nodeid, k);
      nlookup := nlookup[nodeid := nlookup[nodeid] - k];
      if nlookup[nodeid] == 0 {
        UnrefNode(nodeid, c);
      }
    }

    // `remove_node` on the write-locked entry of a held path.
    method RemoveNode(ghost t: Token, dir: Id, nm: string)
      requires Inv(View()) && t in holds && holds[t].dir == dir
      requires Lookup(View(), dir, nm).Some? ==> Lookup(View(), dir, nm) == holds[t].wnode
      modifies this
      ensures View() == NodeSteps.RemoveNode(old(View()), t, nm) && Inv(View())
      ensures entry == old(entry) - {(dir, nm)} && nlookup == old(nlookup) && treelock == old(treelock) &&
        holds == old(holds)
    {
      hide Line, Acyclic, Conserved, HoldInv, LockInv, Entries, Ready, Fell, Unhash;
      ghost var s := View();
      RemoveEffect(s, t, nm);
      var node := LookupNode(dir, nm);
      if node.Some? {
        UnhashWriteHeld(s, t, nm, node.value);
        UnlinkHeld(t, node.value, nm);
      }
    }

    // `unhash_name` on the write-locked entry of a held path.
    method UnlinkHeld(ghost t: Token, node: Id, ghost nm: string)
      requires Inv(View()) && t in holds && holds[t].wnode == Some(node) &&
        Lookup(View(), holds[t].dir, nm) == Some(node)
      modifies this
      ensures View() == Unhash(old(View()), node) && Inv(View())
    {
      hide Inv, Line, Ready, Fell, Unhash, Unhashed;
      ghost var s := View();
      UnhashWriteHeld(s, t, nm, node);
      ghost var c := UnhashChain(s, t, node);
      UnhashName(node, c);
    }

    // `rename_node`: `tOld` and `tNew` are the paths held by the caller, `oom` the failure of strdup.
    method RenameNode(ghost tOld: Token, olddir: Id, oldname: string,
                      ghost tNew: Token, newdir: Id, newname: string, hiding: bool, oom: bool)
      returns (err: Err)
      requires Inv(View()) && MayRename(View(), tOld, oldname, tNew, newname, hiding)
      requires holds[tOld].dir == olddir && holds[tNew].dir == newdir
      modifies this
      ensures View() == Rename(old(View()), tOld, oldname, tNew, newname, hiding, oom) && Inv(View())
      ensures err == if Lookup(old(View()), olddir, oldname).None? then Ok
                     else if hiding && Lookup(old(View()), newdir, newname).Some? then EBUSY
                     else if oom then ENOMEM
                     else Ok
    {
      hide Inv, Unhash, Attachable, Attach;
      ghost var s := View();
      RenameKeepsInv(s, tOld, oldname, tNew, newname, hiding, oom);
      var node := LookupNode(olddir, oldname);
      var newnode := LookupNode(newdir, newname);
      err := Ok;
      if node.None? {
        return;
      }
      if newnode.Some? {
        if hiding {
          return EBUSY;
        }
        UnlinkHeld(tNew, newnode.value, newname);
      }
      ReplacedKeepsInv(s, tOld, oldname, tNew, newname, hiding);
      UnlinkHeld(tOld, node.value, oldname);
      RenamedDetached(s, tOld, oldname, tNew, newname, hiding);
      if oom {
        return ENOMEM;
      }
      HashName(node.value, newdir, newname);
    }
  }
}
