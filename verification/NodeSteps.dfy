/** The atomic steps on the libfuse node tree, and the proof that every run of them keeps the invariants. */
module NodeSteps {
  import opened Common
  import opened NodeTree

  datatype Err = Ok | EAGAIN | ENOENT | ENOMEM | EBUSY

  // The allocation of `try_get_path` that fails, if one does: 0 is the buffer with the last name in it, `n` the
  // room for the name of the `n`th node of the climb.
  datatype Memory = Enough | FailsAt(n: nat)

  // ------------------------------------------------------------------ locking a path

  function Last(c: seq<Id>): Id
    requires c != []
  {
    c[|c| - 1]
  }

  function MarkWaiting(lock: map<Id, int>, w: Id): map<Id, int>
    requires w in lock
  {
    if lock[w] > 0 then lock[w := lock[w] + WAIT_OFFSET] else lock
  }

  // The climb meets a write-locked or write-awaited node, or the node this request is write-locking.
  predicate Blocked(lock: map<Id, int>, c: seq<Id>, w: Option<Id>)
    requires c != []
  {
    exists k :: 0 <= k < |c| - 1 && c[k] in lock && (w == Some(c[k]) || lock[c[k]] < 0)
  }

  function Taken(lock: map<Id, int>, h: Hold): map<Id, int> {
    map n | n in lock :: if Writes(h, n) then WRITE else if Reads(h, n) then lock[n] + 1 else lock[n]
  }

  function Unread(word: int): int {
    if word - 1 == WAIT_OFFSET then 0 else word - 1
  }

  function Freed(lock: map<Id, int>, h: Hold): map<Id, int> {
    map n | n in lock :: if Writes(h, n) then 0 else if Reads(h, n) then Unread(lock[n]) else lock[n]
  }

  // `try_get_path` with locking, when no allocation fails.
  ghost function TryPath(s: State, t: Token, dir: Id, nm: string, write: bool): (r: (State, Err))
    requires TreeInv(s) && dir in s.lock
  {
    var w := if write then Lookup(s, dir, nm) else None;
    assert w.Some? ==> w.value in s.parent;
    if w.Some? && s.lock[w.value] != 0 then (s.(lock := MarkWaiting(s.lock, w.value)), EAGAIN)
    else
      assert HasLine(s.parent, dir);
      var c := LineOf(s.parent, dir);
      if Blocked(s.lock, c, w) then (s, EAGAIN)
      else if Last(c) != ROOT then (s, ENOENT)
      else
        var h := Hold(dir, c, w);
        (s.(lock := Taken(s.lock, h), holds := s.holds[t := h]), Ok)
  }

  // The climb reaches the name for which there is no memory.
  ghost predicate ClimbFails(lock: map<Id, int>, c: seq<Id>, w: Option<Id>, m: Memory) {
    m.FailsAt? && 0 < m.n < |c| && !Blocked(lock, c[..m.n], w)
  }

  // `try_get_path` runs out of memory: before it looks at any lock, or in a climb that nothing has blocked yet.
  ghost predicate OutOfMemory(s: State, dir: Id, nm: string, write: bool, m: Memory)
    requires TreeInv(s) && dir in s.lock
  {
    var w := if write then Lookup(s, dir, nm) else None;
    assert w.Some? ==> w.value in s.parent;
    assert HasLine(s.parent, dir);
    || m == FailsAt(0)
    || ((w.Some? ==> s.lock[w.value] == 0) && ClimbFails(s.lock, LineOf(s.parent, dir), w, m))
  }

  // `try_get_path` with locking.
  ghost function TryWith(s: State, t: Token, dir: Id, nm: string, write: bool, m: Memory): (r: (State, Err))
    requires TreeInv(s) && dir in s.lock
    ensures r.1 == ENOMEM ==> r.0 == s
    ensures m == Enough ==> r.1 != ENOMEM && r == TryPath(s, t, dir, nm, write)
  {
    if OutOfMemory(s, dir, nm, write, m) then (s, ENOMEM) else TryPath(s, t, dir, nm, write)
  }

  // `unlock_path`
  ghost function Release(s: State, t: Token): State
    requires t in s.holds
  {
    s.(lock := Freed(s.lock, s.holds[t]), holds := s.holds - {t})
  }

  lemma {:induction false} LineLive(s: State, n: Id, c: seq<Id>)
    requires Keyed(s) && Entries(s.parent, s.name, s.entry, s.lock.Keys) && n in s.lock && Line(s.parent, n, c)
    ensures forall m :: m in c ==> m in s.lock
    decreases c
  {
    if |c| > 1 {
      LineLive(s, s.parent[n], c[1..]);
      assert c == [n] + c[1..];
    }
  }

  lemma HoldsAdd(holds: map<Token, Hold>, t: Token, h: Hold, n: Id)
    requires t !in holds
    ensures Readers(holds[t := h], n) == if Reads(h, n) then Readers(holds, n) + {t} else Readers(holds, n)
    ensures Writers(holds[t := h], n) == if Writes(h, n) then Writers(holds, n) + {t} else Writers(holds, n)
  {
  }

  lemma HoldsDrop(holds: map<Token, Hold>, t: Token, n: Id)
    requires t in holds
    ensures Readers(holds - {t}, n) == Readers(holds, n) - {t}
    ensures Writers(holds - {t}, n) == Writers(holds, n) - {t}
  {
  }

  // The kernel holds a reference to the directories it operates on and to the entries it has looked up.
  ghost predicate KernelHolds(s: State, dir: Id, nm: string, write: bool) {
    && dir in s.nlookup && s.nlookup[dir] > 0
    && (write && Lookup(s, dir, nm).Some? ==>
          var w := Lookup(s, dir, nm).value; w in s.nlookup && s.nlookup[w] > 0)
  }

  // ------------------------------------------------------------------ frames

  lemma HoldFrame(p: map<Id, Id>, nl: map<Id, nat>, p': map<Id, Id>, nl': map<Id, nat>, h: Hold)
    requires HoldOk(p, nl, h)
    requires forall m :: m in h.line ==> (m in p <==> m in p') && (m in p ==> p'[m] == p[m])
    requires forall m :: m in h.line || h.wnode == Some(m) ==> m in nl'
    requires forall m :: m == h.dir || h.wnode == Some(m) ==> m in nl' && (m in nl && nl[m] > 0 ==> nl'[m] > 0)
    ensures HoldOk(p', nl', h)
  {
    LineFrame(p, p', h.dir, h.line);
  }

  ghost predicate Takeable(s: State, h: Hold) {
    && Line(s.parent, h.dir, h.line) && Last(h.line) == ROOT && h.dir in s.lock
    && !Blocked(s.lock, h.line, h.wnode)
    && h.dir in s.nlookup && s.nlookup[h.dir] > 0
    && (h.wnode.Some? ==> h.wnode.value in s.parent && h.wnode.value in s.lock && s.lock[h.wnode.value] == 0
                          && h.wnode.value in s.nlookup && s.nlookup[h.wnode.value] > 0)
  }

  lemma TakenKeepsHolds(s: State, t: Token, h: Hold)
    requires TreeInv(s) && HoldInv(s.parent, s.nlookup, s.holds) && t !in s.holds && Takeable(s, h)
    ensures HoldInv(s.parent, s.nlookup, s.holds[t := h])
  {
    LineLive(s, h.dir, h.line);
  }

  // A node the climb went through was free of writers, and is not the write-locked child.
  lemma ClimbedReadable(s: State, h: Hold, n: Id)
    requires TreeInv(s) && Takeable(s, h) && Reads(h, n)
    ensures n in s.lock && s.lock[n] >= 0 && !Writes(h, n)
  {
    LineLive(s, h.dir, h.line);
    var k :| 0 <= k < |h.line| && h.line[k] == n;
  }

  lemma TakenWord(s: State, t: Token, h: Hold, n: Id)
    requires LockInv(s.lock, s.holds) && t !in s.holds && n in s.lock
    requires Reads(h, n) ==> s.lock[n] >= 0 && !Writes(h, n)
    requires Writes(h, n) ==> s.lock[n] == 0
    ensures Decodes(Taken(s.lock, h)[n], |Readers(s.holds[t := h], n)|, |Writers(s.holds[t := h], n)|)
  {
    HoldsAdd(s.holds, t, h, n);
    LockWord(s.lock, s.holds, n);
  }

  lemma TakenKeepsLocks(s: State, t: Token, h: Hold)
    requires TreeInv(s) && LockInv(s.lock, s.holds) && t !in s.holds && |s.holds| < INT_MAX - 1 && Takeable(s, h)
    ensures LockInv(Taken(s.lock, h), s.holds[t := h])
  {
    hide Line, Entries, Acyclic, Blocked, Readers, Writers, Decodes;
    forall n | n in Taken(s.lock, h)
      ensures Decodes(Taken(s.lock, h)[n], |Readers(s.holds[t := h], n)|, |Writers(s.holds[t := h], n)|)
    {
      if Reads(h, n) { ClimbedReadable(s, h, n); }
      TakenWord(s, t, h, n);
    }
  }

  // A failed attempt leaves everything as it was, but for a writer-waiting mark on the node it would
  // have write-locked; a successful one adds exactly one hold.
  lemma TryPathEffect(s: State, t: Token, dir: Id, nm: string, write: bool)
    requires TreeInv(s) && dir in s.lock && t !in s.holds
    ensures var (s', err) := TryPath(s, t, dir, nm, write);
            && s' == s.(lock := s'.lock, holds := s'.holds) && s'.lock.Keys == s.lock.Keys
            && (err == Ok ==> s'.holds.Keys == s.holds.Keys + {t} && s'.holds - {t} == s.holds)
            && (err != Ok ==>
                  && s'.holds == s.holds
                  && forall n :: n in s.lock ==>
                       s'.lock[n] == s.lock[n]
                       || (write && Lookup(s, dir, nm) == Some(n) && s.lock[n] > 0 &&
                         s'.lock[n] == s.lock[n] + WAIT_OFFSET))
  {
    hide Line, Acyclic, Blocked;
    var (s', err) := TryPath(s, t, dir, nm, write);
    if err == Ok {
      assert s'.holds - {t} == s.holds;
    }
  }

  lemma LookupLive(s: State, dir: Id, nm: string)
    requires TreeInv(s) && Lookup(s, dir, nm).Some?
    ensures Lookup(s, dir, nm).value in s.parent && Lookup(s, dir, nm).value in s.lock
  {
    assert s.parent[s.entry[(dir, nm)]] == dir;
  }

  lemma TakeableOnSuccess(s: State, t: Token, dir: Id, nm: string, write: bool)
    requires TreeInv(s) && KernelHolds(s, dir, nm, write) && TryPath(s, t, dir, nm, write).1 == Ok
    ensures var s' := TryPath(s, t, dir, nm, write).0;
            && t in s'.holds && Takeable(s, s'.holds[t])
            && s' == s.(lock := Taken(s.lock, s'.holds[t]), holds := s.holds[t := s'.holds[t]])
  {
    hide Entries, Acyclic;
    if write && Lookup(s, dir, nm).Some? { LookupLive(s, dir, nm); }
  }

  lemma TryPathKeepsInv(s: State, t: Token, dir: Id, nm: string, write: bool)
    requires Inv(s) && t !in s.holds && |s.holds| < INT_MAX - 1 && KernelHolds(s, dir, nm, write)
    ensures Inv(TryPath(s, t, dir, nm, write).0)
  {
    hide Line, Entries, Acyclic, Conserved, HoldInv, LockInv, Takeable;
    var (s', err) := TryPath(s, t, dir, nm, write);
    if err == Ok {
      hide TryPath;
      TakeableOnSuccess(s, t, dir, nm, write);
      TakenKeepsLocks(s, t, s'.holds[t]);
      TakenKeepsHolds(s, t, s'.holds[t]);
      assert s'.lock.Keys == s.lock.Keys;
    } else if s' != s {
      var w := Lookup(s, dir, nm).value;
      LookupLive(s, dir, nm);
      MarkKeepsLocks(s.lock, s.holds, w);
      assert s'.lock.Keys == s.lock.Keys;
    }
  }

  lemma TryWithKeepsInv(s: State, t: Token, dir: Id, nm: string, write: bool, m: Memory)
    requires Inv(s) && t !in s.holds && |s.holds| < INT_MAX - 1 && KernelHolds(s, dir, nm, write)
    ensures Inv(TryWith(s, t, dir, nm, write, m).0)
  {
    TryPathKeepsInv(s, t, dir, nm, write);
  }

  lemma TryWithEffect(s: State, t: Token, dir: Id, nm: string, write: bool, m: Memory)
    requires TreeInv(s) && dir in s.lock && t !in s.holds
    ensures var (s', err) := TryWith(s, t, dir, nm, write, m);
            && s' == s.(lock := s'.lock, holds := s'.holds) && s'.lock.Keys == s.lock.Keys
            && (err == Ok ==>
                  s'.holds.Keys == s.holds.Keys + {t} && s'.holds - {t} == s.holds && s'.holds[t].dir == dir)
            && (err != Ok ==> s'.holds == s.holds)
            && err != EBUSY
  {
    hide Line, Entries, Acyclic, OutOfMemory, Blocked;
    TryPathEffect(s, t, dir, nm, write);
  }

  lemma MarkKeepsLocks(lock: map<Id, int>, holds: map<Token, Hold>, w: Id)
    requires LockInv(lock, holds) && w in lock
    ensures LockInv(MarkWaiting(lock, w), holds)
  {
    LockWord(lock, holds, w);
  }

  lemma FreedKeepsLocks(lock: map<Id, int>, holds: map<Token, Hold>, t: Token)
    requires LockInv(lock, holds) && t in holds
    ensures LockInv(Freed(lock, holds[t]), holds - {t})
  {
    var lock', holds', h := Freed(lock, holds[t]), holds - {t}, holds[t];
    SubsetSize(holds'.Keys, holds.Keys);
    forall n | n in lock'
      ensures Decodes(lock'[n], |Readers(holds', n)|, |Writers(holds', n)|)
    {
      HoldsDrop(holds, t, n);
      LockWord(lock, holds, n);
      ReadersBounded(holds, n);
      assert t in Writers(holds, n) <==> Writes(h, n);
      assert t in Readers(holds, n) <==> Reads(h, n);
    }
  }

  lemma DropKeepsHolds(p: map<Id, Id>, nl: map<Id, nat>, holds: map<Token, Hold>, t: Token)
    requires HoldInv(p, nl, holds)
    ensures HoldInv(p, nl, holds - {t})
  {
    hide HoldOk;
  }

  lemma ReleaseKeepsInv(s: State, t: Token)
    requires Inv(s) && t in s.holds
    ensures Inv(Release(s, t))
  {
    hide Entries, Acyclic, Conserved, HoldInv, LockInv;
    FreedKeepsLocks(s.lock, s.holds, t);
    DropKeepsHolds(s.parent, s.nlookup, s.holds, t);
    assert Release(s, t).lock.Keys == s.lock.Keys;
  }

  // Giving a path back ends its hold and nothing else; a waiting mark stays as long as someone reads the node.
  lemma ReleaseEffect(s: State, t: Token, n: Id)
    requires Inv(s) && t in s.holds && n in s.lock
    ensures var s' := Release(s, t);
            && s' == s.(lock := s'.lock, holds := s.holds - {t}) && s'.lock.Keys == s.lock.Keys
            && (s'.lock[n] == 0 <==> Readers(s'.holds, n) == {} && Writers(s'.holds, n) == {})
            && (s'.lock[n] < WRITE <==> s.lock[n] < WRITE && Readers(s'.holds, n) != {})
  {
    hide TreeInv, RefInv, HoldInv, LockInv, Readers, Writers, Reads, Writes;
    ReleaseKeepsInv(s, t);
    LockWord(s.lock, s.holds, n);
    LockWord(Release(s, t).lock, s.holds - {t}, n);
    HoldsDrop(s.holds, t, n);
    HoldersOf(s.holds, t, n);
    ReadersBounded(s.holds, n);
  }

  lemma HoldersOf(holds: map<Token, Hold>, t: Token, n: Id)
    requires t in holds
    ensures t in Readers(holds, n) <==> Reads(holds[t], n)
    ensures t in Writers(holds, n) <==> Writes(holds[t], n)
  {
  }

  // ------------------------------------------------------------------ nodes come and go

  function IncLookup(s: State, n: Id): State
    requires n in s.nlookup && n in s.refctr
  {
    s.(nlookup := s.nlookup[n := s.nlookup[n] + 1],
       refctr := if s.nlookup[n] == 0 then s.refctr[n := s.refctr[n] + 1] else s.refctr)
  }

  // A node known to the kernel, not yet in the tree.
  function Born(s: State, n: Id): State {
    s.(nlookup := s.nlookup[n := 1], refctr := s.refctr[n := 1], lock := s.lock[n := 0])
  }

  // `hash_name`: enter `w` under directory `d`, which gains a reference.
  function Attach(s: State, w: Id, d: Id, nm: string): State
    requires d in s.refctr
  {
    s.(entry := s.entry[(d, nm) := w], parent := s.parent[w := d], name := s.name[w := nm],
       refctr := s.refctr[d := s.refctr[d] + 1])
  }

  // The first part of `unhash_name`: take `w` out of its directory.
  function Detach(s: State, w: Id): State
    requires w in s.parent && w in s.name
  {
    s.(entry := s.entry - {(s.parent[w], s.name[w])}, parent := s.parent - {w}, name := s.name - {w})
  }

  function Remove(s: State, dead: set<Id>): State {
    State(s.parent - dead, s.name - dead, map k | k in s.entry && s.entry[k] !in dead :: s.entry[k],
          s.nlookup - dead, s.refctr - dead, s.lock - dead, s.holds)
  }

  // How many nodes of the chain `c` go when `c[0]` loses a reference: each was the last reference of
  // the next.
  function Doomed(refctr: map<Id, int>, c: seq<Id>): (m: nat)
    ensures m <= |c|
  {
    if c != [] && c[0] in refctr && refctr[c[0]] == 1 then 1 + Doomed(refctr, c[1..]) else 0
  }

  function Elements(c: seq<Id>): set<Id> {
    set n | n in c
  }

  // `unref_node(c[0])` where `c` is its parent chain: the doomed nodes are deleted and the first survivor
  // loses one reference.
  function Fell(s: State, c: seq<Id>): State {
    var m := Doomed(s.refctr, c);
    var s1 := Remove(s, Elements(c[..m]));
    if m < |c| && c[m] in s1.refctr then s1.(refctr := s1.refctr[c[m] := s1.refctr[c[m]] - 1]) else s1
  }

  lemma IncLookupKeepsRefs(s: State, n: Id)
    requires RefInv(s) && n in s.nlookup && n in s.refctr
    ensures RefInv(IncLookup(s, n))
  {
  }

  // Holds survive any change that keeps the kernel's references.
  lemma GrowKeepsHolds(p: map<Id, Id>, nl: map<Id, nat>, nl': map<Id, nat>, holds: map<Token, Hold>)
    requires HoldInv(p, nl, holds)
    requires forall m :: m in nl ==> m in nl' && (nl[m] > 0 ==> nl'[m] > 0)
    ensures HoldInv(p, nl', holds)
  {
    hide Line;
  }

  lemma IncLookupKeepsInv(s: State, n: Id)
    requires Inv(s) && n in s.lock
    ensures Inv(IncLookup(s, n))
  {
    hide Entries, Acyclic, Conserved, HoldInv, LockInv;
    IncLookupKeepsRefs(s, n);
    GrowKeepsHolds(s.parent, s.nlookup, IncLookup(s, n).nlookup, s.holds);
  }

  lemma FreshUnused(s: State, n: Id)
    requires TreeInv(s) && HoldInv(s.parent, s.nlookup, s.holds) && n !in s.lock
    ensures n !in s.parent && Kids(s.entry, n) == {}
    ensures forall t :: t in s.holds ==> !Reads(s.holds[t], n) && !Writes(s.holds[t], n)
  {
    hide Line, Acyclic;
    forall m | m in s.parent ensures m in s.lock { var _ := s.parent[m]; }
    forall k | k in s.entry ensures k.0 in s.lock { assert s.parent[s.entry[k]] == k.0; }
  }

  lemma BornKeepsTree(s: State, n: Id)
    requires TreeInv(s) && n !in s.lock && n !in s.parent
    ensures TreeInv(Born(s, n))
  {
    var s' := Born(s, n);
    assert Entries(s'.parent, s'.name, s'.entry, s'.lock.Keys);
    forall m | m in s'.lock
      ensures HasLine(s'.parent, m)
    {
      if m == n { assert Line(s'.parent, n, [n]); }
    }
  }

  lemma BornKeepsInv(s: State, n: Id)
    requires Inv(s) && n !in s.lock
    ensures Inv(Born(s, n))
  {
    hide Entries, Acyclic, HoldInv, LockInv;
    FreshUnused(s, n);
    BornKeepsTree(s, n);
    BornKeepsLocks(s.lock, s.holds, n);
    GrowKeepsHolds(s.parent, s.nlookup, Born(s, n).nlookup, s.holds);
  }

  lemma BornKeepsLocks(lock: map<Id, int>, holds: map<Token, Hold>, n: Id)
    requires LockInv(lock, holds)
    requires forall t :: t in holds ==> !Reads(holds[t], n) && !Writes(holds[t], n)
    ensures LockInv(lock[n := 0], holds)
  {
    assert Readers(holds, n) == {} && Writers(holds, n) == {};
  }

  // ------------------------------------------------------------------ entering and leaving a directory

  // `w` is a node outside the tree that can be entered as (d, nm): it is in no held chain, and `d` is
  // neither `w` nor below it.
  ghost predicate Attachable(s: State, w: Id, d: Id, nm: string, cd: seq<Id>) {
    && w in s.lock && w !in s.parent && w != ROOT && d in s.lock && (d, nm) !in s.entry
    && Line(s.parent, d, cd) && w !in cd
    && (forall t :: t in s.holds ==> w !in s.holds[t].line)
  }

  lemma AttachKeepsTree(s: State, w: Id, d: Id, nm: string, cd: seq<Id>)
    requires TreeInv(s) && Attachable(s, w, d, nm, cd)
    ensures TreeInv(Attach(s, w, d, nm))
  {
    var s' := Attach(s, w, d, nm);
    forall n | n in s'.lock
      ensures HasLine(s'.parent, n)
    {
      assert HasLine(s.parent, n);
      var r := LineMove(s.parent, n, LineOf(s.parent, n), w, d, cd);
    }
    AttachKeepsEntries(s, w, d, nm);
  }

  lemma AttachKeepsEntries(s: State, w: Id, d: Id, nm: string)
    requires Keyed(s) && Entries(s.parent, s.name, s.entry, s.lock.Keys)
    requires w in s.lock && w !in s.parent && d in s.lock && (d, nm) !in s.entry
    ensures var s' := Attach(s, w, d, nm); Entries(s'.parent, s'.name, s'.entry, s'.lock.Keys)
  {
    var s' := Attach(s, w, d, nm);
    forall n | n in s'.parent
      ensures n in s'.lock && n in s'.name && s'.parent[n] in s'.lock
      ensures (s'.parent[n], s'.name[n]) in s'.entry && s'.entry[(s'.parent[n], s'.name[n])] == n
    {
      if n != w {
        assert s.entry[(s.parent[n], s.name[n])] == n;
      }
    }
    forall k | k in s'.entry
      ensures s'.entry[k] in s'.parent && s'.entry[k] in s'.name
      ensures s'.parent[s'.entry[k]] == k.0 && s'.name[s'.entry[k]] == k.1
    {
      if k != (d, nm) {
        assert s.parent[s.entry[k]] == k.0;
      }
    }
  }

  lemma KidsAdd(entry: map<(Id, string), Id>, k: (Id, string), w: Id, n: Id)
    requires k !in entry
    ensures |Kids(entry[k := w], n)| == |Kids(entry, n)| + if n == k.0 then 1 else 0
  {
    assert Kids(entry[k := w], n) == Kids(entry, n) + if n == k.0 then {k} else {};
  }

  lemma KidsDrop(entry: map<(Id, string), Id>, k: (Id, string), n: Id)
    requires k in entry
    ensures |Kids(entry - {k}, n)| == |Kids(entry, n)| - if n == k.0 then 1 else 0
  {
    assert k.0 == n ==> k in Kids(entry, n);
    assert Kids(entry - {k}, n) == Kids(entry, n) - if n == k.0 then {k} else {};
  }

  lemma AttachKeepsRefs(s: State, w: Id, d: Id, nm: string)
    requires RefInv(s) && d in s.refctr && (d, nm) !in s.entry
    ensures RefInv(Attach(s, w, d, nm))
  {
    hide Kids;
    var s' := Attach(s, w, d, nm);
    forall n | n in s'.refctr
      ensures s'.refctr[n] == Due(s'.entry, s'.nlookup, n)
    {
      KidsAdd(s.entry, (d, nm), w, n);
    }
  }

  // Changing the parents of nodes in no held chain changes no held chain.
  lemma MoveKeepsHolds(p: map<Id, Id>, p': map<Id, Id>, nl: map<Id, nat>, holds: map<Token, Hold>, w: Id)
    requires HoldInv(p, nl, holds)
    requires forall t :: t in holds ==> w !in holds[t].line
    requires forall m :: m != w ==> (m in p <==> m in p') && (m in p ==> p'[m] == p[m])
    ensures HoldInv(p', nl, holds)
  {
    hide Line;
    forall t | t in holds
      ensures HoldOk(p', nl, holds[t])
    {
      HoldFrame(p, nl, p', nl, holds[t]);
    }
  }

  lemma AttachKeepsInv(s: State, w: Id, d: Id, nm: string, cd: seq<Id>)
    requires Inv(s) && Attachable(s, w, d, nm, cd)
    ensures Inv(Attach(s, w, d, nm))
  {
    hide Line, Entries, Acyclic, Conserved, HoldInv, LockInv;
    AttachKeepsTree(s, w, d, nm, cd);
    AttachKeepsRefs(s, w, d, nm);
    MoveKeepsHolds(s.parent, s.parent[w := d], s.nlookup, s.holds, w);
  }

  // Between the invariants of two steps: `extra` holds a reference too many.
  ghost predicate InvBut(s: State, extra: Option<Id>) {
    && TreeInv(s) && Conserved(s.entry, s.nlookup, s.refctr, extra)
    && HoldInv(s.parent, s.nlookup, s.holds) && LockInv(s.lock, s.holds)
  }

  lemma DetachKeepsTree(s: State, w: Id)
    requires TreeInv(s) && w in s.parent
    ensures TreeInv(Detach(s, w))
  {
    var s' := Detach(s, w);
    forall n | n in s'.lock
      ensures HasLine(s'.parent, n)
    {
      assert HasLine(s.parent, n);
      var r := LineCut(s.parent, n, LineOf(s.parent, n), {w});
    }
    DetachKeepsEntries(s, w);
  }

  lemma DetachKeepsEntries(s: State, w: Id)
    requires Keyed(s) && Entries(s.parent, s.name, s.entry, s.lock.Keys) && w in s.parent
    ensures var s' := Detach(s, w); Entries(s'.parent, s'.name, s'.entry, s'.lock.Keys)
  {
    var s' := Detach(s, w);
    forall n | n in s'.parent
      ensures (s.parent[n], s.name[n]) in s'.entry
    {
      assert s.entry[(s.parent[n], s.name[n])] == n;
      assert s.entry[(s.parent[w], s.name[w])] == w;
    }
  }

  lemma DetachMovesRef(s: State, w: Id)
    requires RefInv(s) && w in s.parent && w in s.name && (s.parent[w], s.name[w]) in s.entry
    ensures Conserved(Detach(s, w).entry, s.nlookup, s.refctr, Some(s.parent[w]))
  {
    hide Kids;
    var d, s' := s.parent[w], Detach(s, w);
    forall n | n in s.refctr
      ensures s.refctr[n] == Due(s'.entry, s.nlookup, n) + if n == d then 1 else 0
    {
      KidsDrop(s.entry, (d, s.name[w]), n);
    }
  }

  lemma DetachKeepsInvBut(s: State, w: Id)
    requires Inv(s) && w in s.parent && forall t :: t in s.holds ==> w !in s.holds[t].line
    ensures InvBut(Detach(s, w), Some(s.parent[w]))
  {
    hide Line, Acyclic, Conserved, HoldInv, LockInv;
    DetachKeepsTree(s, w);
    assert (s.parent[w], s.name[w]) in s.entry;
    DetachMovesRef(s, w);
    MoveKeepsHolds(s.parent, s.parent - {w}, s.nlookup, s.holds, w);
  }

  // ------------------------------------------------------------------ dropping a reference

  // Deleting one node that nothing references moves the excess reference to its parent.
  lemma RemoveOneKeepsTree(s: State, n: Id)
    requires TreeInv(s) && n in s.lock && n != ROOT && Kids(s.entry, n) == {}
    ensures TreeInv(Remove(s, {n}))
    ensures n in s.parent ==> Remove(s, {n}).entry == Detach(s, n).entry
    ensures n !in s.parent ==> Remove(s, {n}).entry == s.entry
  {
    var s' := Remove(s, {n});
    if n in s.parent {
      DetachKeepsTree(s, n);
      RemoveEntry(s, n);
      EntriesShrink(Detach(s, n), n);
    } else {
      assert s.parent - {n} == s.parent && s.name - {n} == s.name;
      forall k | k in s.entry ensures s.entry[k] != n { }
      assert s'.entry == s.entry;
      EntriesShrink(s, n);
    }
    AcyclicShrink(s, n);
  }

  lemma RemoveEntry(s: State, n: Id)
    requires TreeInv(s) && n in s.parent
    ensures Remove(s, {n}).entry == Detach(s, n).entry
  {
    hide Acyclic;
    forall k | k in s.entry
      ensures s.entry[k] == n <==> k == (s.parent[n], s.name[n])
    {
    }
  }

  lemma EntriesShrink(s: State, n: Id)
    requires Keyed(s) && Entries(s.parent, s.name, s.entry, s.lock.Keys) && Kids(s.entry, n) == {} && n !in s.parent
    ensures Entries(s.parent, s.name, s.entry, (s.lock - {n}).Keys)
  {
    forall m | m in s.parent
      ensures s.parent[m] != n
    {
      assert (s.parent[m], s.name[m]) !in Kids(s.entry, n);
    }
  }

  lemma AcyclicShrink(s: State, n: Id)
    requires Acyclic(s.parent, s.lock.Keys)
    ensures Acyclic(s.parent - {n}, (s.lock - {n}).Keys)
  {
    forall m | m in (s.lock - {n}).Keys
      ensures HasLine(s.parent - {n}, m)
    {
      assert HasLine(s.parent, m);
      var r := LineCut(s.parent, m, LineOf(s.parent, m), {n});
    }
  }

  lemma LastReference(s: State, n: Id)
    requires Conserved(s.entry, s.nlookup, s.refctr, Some(n)) && n in s.refctr && s.refctr[n] == 1
    ensures n != ROOT && s.nlookup[n] == 0 && Kids(s.entry, n) == {}
  {
  }

  lemma RemoveOneMovesRef(s: State, n: Id)
    requires TreeInv(s) && Conserved(s.entry, s.nlookup, s.refctr, Some(n)) && n in s.refctr && s.refctr[n] == 1
    ensures n != ROOT && s.nlookup[n] == 0 && Kids(s.entry, n) == {}
    ensures var s' := Remove(s, {n});
            Conserved(s'.entry, s'.nlookup, s'.refctr, if n in s.parent then Some(s.parent[n]) else None)
  {
    hide Entries, Acyclic, Kids;
    var s' := Remove(s, {n});
    LastReference(s, n);
    RemoveOneKeepsTree(s, n);
    if n in s.parent {
      EntryPresent(s, n);
    }
    forall m | m in s'.refctr
      ensures s'.refctr[m] == Due(s'.entry, s'.nlookup, m) + if n in s.parent && s.parent[n] == m then 1 else 0
    {
      assert m != n;
      if n in s.parent {
        KidsDrop(s.entry, (s.parent[n], s.name[n]), m);
      }
    }
  }

  lemma EntryPresent(s: State, n: Id)
    requires TreeInv(s) && n in s.parent
    ensures n in s.name && s.parent[n] in s.lock && (s.parent[n], s.name[n]) in s.entry
    ensures s.entry[(s.parent[n], s.name[n])] == n
  {
  }

  // Removing a node in no held path.
  lemma ShrinkKeepsHolds(p: map<Id, Id>, nl: map<Id, nat>, holds: map<Token, Hold>, n: Id)
    requires HoldInv(p, nl, holds) && n != ROOT
    requires forall t :: t in holds ==> !Reads(holds[t], n) && !Writes(holds[t], n)
    ensures HoldInv(p - {n}, nl - {n}, holds)
  {
    hide Line;
    forall t | t in holds
      ensures HoldOk(p - {n}, nl - {n}, holds[t])
    {
      HeldDirInLine(p, nl, holds[t]);
      HoldFrame(p, nl, p - {n}, nl - {n}, holds[t]);
    }
  }

  lemma HeldDirInLine(p: map<Id, Id>, nl: map<Id, nat>, h: Hold)
    requires HoldOk(p, nl, h)
    ensures h.dir in h.line
  {
    assert h.line[0] == h.dir;
  }

  lemma ShrinkKeepsLocks(lock: map<Id, int>, holds: map<Token, Hold>, n: Id)
    requires LockInv(lock, holds)
    ensures LockInv(lock - {n}, holds)
  {
    hide Readers, Writers;
  }

  lemma RemoveOneKeepsHolds(s: State, n: Id)
    requires TreeInv(s) && HoldInv(s.parent, s.nlookup, s.holds) && LockInv(s.lock, s.holds)
    requires n in s.lock && n != ROOT && s.nlookup[n] == 0 && Kids(s.entry, n) == {}
    ensures var s' := Remove(s, {n}); HoldInv(s'.parent, s'.nlookup, s'.holds) && LockInv(s'.lock, s'.holds)
    ensures s.lock[n] == 0
  {
    hide Entries, Acyclic, HoldInv, LockInv;
    UnreferencedFree(s, n);
    UnreferencedUnlocked(s, n);
    ShrinkKeepsHolds(s.parent, s.nlookup, s.holds, n);
    ShrinkKeepsLocks(s.lock, s.holds, n);
  }

  lemma RemoveOneKeepsInvBut(s: State, n: Id)
    requires InvBut(s, Some(n)) && n in s.refctr && s.refctr[n] == 1
    ensures InvBut(Remove(s, {n}), if n in s.parent then Some(s.parent[n]) else None)
  {
    hide Line, Entries, Acyclic, Conserved, HoldInv, LockInv;
    RemoveOneMovesRef(s, n);
    RemoveOneKeepsTree(s, n);
    RemoveOneKeepsHolds(s, n);
  }

  // The cascade, one node at a time.
  lemma FellUnfold(s: State, c: seq<Id>)
    requires c != [] && c[0] in s.refctr && s.refctr[c[0]] == 1
    requires forall i :: 0 < i < |c| ==> c[i] != c[0]
    ensures Fell(s, c) == Fell(Remove(s, {c[0]}), c[1..])
  {
    var n, s1 := c[0], Remove(s, {c[0]});
    DoomedFrame(s.refctr, s1.refctr, c[1..]);
    var m := Doomed(s.refctr, c[1..]);
    assert c[..m + 1] == [n] + c[1..][..m];
    var dead, dead1 := Elements(c[..m + 1]), Elements(c[1..][..m]);
    assert dead == {n} + dead1;
    RemoveTwice(s, {n}, dead1);
  }

  lemma {:induction false} DoomedFrame(r: map<Id, int>, r': map<Id, int>, c: seq<Id>)
    requires forall n :: n in c ==> (n in r <==> n in r') && (n in r ==> r[n] == r'[n])
    ensures Doomed(r, c) == Doomed(r', c)
  {
    if c != [] {
      DoomedFrame(r, r', c[1..]);
    }
  }

  lemma RemoveTwice(s: State, a: set<Id>, b: set<Id>)
    ensures Remove(Remove(s, a), b) == Remove(s, a + b)
  {
    assert s.parent - a - b == s.parent - (a + b);
    assert s.name - a - b == s.name - (a + b);
    assert s.nlookup - a - b == s.nlookup - (a + b);
    assert s.refctr - a - b == s.refctr - (a + b);
    assert s.lock - a - b == s.lock - (a + b);
    assert Remove(Remove(s, a), b).entry == Remove(s, a + b).entry;
  }

  lemma FellStops(s: State, c: seq<Id>)
    requires c != [] && InvBut(s, Some(c[0])) && c[0] in s.lock && s.refctr[c[0]] != 1
    ensures Inv(Fell(s, c))
  {
    hide Entries, Acyclic, HoldInv, LockInv;
    RemoveNothing(s);
    assert Elements(c[..0]) == {};
  }

  lemma {:induction false} FellStep(s: State, c: seq<Id>)
    requires c != [] && InvBut(s, Some(c[0])) && c[0] in s.lock && s.refctr[c[0]] == 1 && Line(s.parent, c[0], c)
    ensures var s1 := Remove(s, {c[0]});
            && Fell(s, c) == Fell(s1, c[1..])
            && Doomed(s.refctr, c) == 1 + Doomed(s1.refctr, c[1..])
            && s.lock[c[0]] == 0 && c[0] != ROOT
            && (|c| == 1 ==> Inv(s1))
            && (|c| > 1 ==> c[1] in s1.lock && InvBut(s1, Some(c[1])) && Line(s1.parent, c[1], c[1..]))
  {
    hide Entries, Acyclic, Conserved, HoldInv, LockInv, Fell;
    LineDistinct(s.parent, c[0], c);
    FellUnfold(s, c);
    RemoveOneMovesRef(s, c[0]);
    RemoveOneKeepsHolds(s, c[0]);
    RemoveOneKeepsInvBut(s, c[0]);
    var s1 := Remove(s, {c[0]});
    DoomedFrame(s.refctr, s1.refctr, c[1..]);
    if |c| > 1 {
      EntryPresent(s, c[0]);
      LineFrame(s.parent, s1.parent, c[1], c[1..]);
    }
  }

  // Dropping a reference restores every invariant, whatever the length of the cascade, and every deleted
  // node was unlocked.
  lemma {:induction false} FellKeepsInv(s: State, c: seq<Id>)
    requires c != [] && InvBut(s, Some(c[0])) && c[0] in s.lock && Line(s.parent, c[0], c)
    ensures Inv(Fell(s, c))
    ensures forall i :: 0 <= i < Doomed(s.refctr, c) ==> c[i] in s.lock && s.lock[c[i]] == 0 && c[i] != ROOT
    decreases c
  {
    hide Entries, Acyclic, HoldInv, LockInv, Conserved, Line;
    if s.refctr[c[0]] != 1 {
      FellStops(s, c);
    } else {
      FellStep(s, c);
      var s1 := Remove(s, {c[0]});
      if |c| > 1 {
        FellKeepsInv(s1, c[1..]);
        forall i | 0 < i < Doomed(s.refctr, c)
          ensures c[i] in s.lock && s.lock[c[i]] == 0 && c[i] != ROOT
        {
          assert c[i] == c[1..][i - 1];
        }
      } else {
        RemoveNothing(s1);
        assert c[1..] == [] && Elements([]) == {};
      }
    }
  }

  lemma RemoveNothing(s: State)
    ensures Remove(s, {}) == s
  {
    assert Remove(s, {}).entry == s.entry;
  }

  // ------------------------------------------------------------------ the operations

  // `find_node` with a name; `newId` is what `next_id` returns.
  function Find(s: State, dir: Id, nm: string, newId: Id): State
    requires dir in s.refctr
    requires Lookup(s, dir, nm).Some? ==> Lookup(s, dir, nm).value in s.nlookup && Lookup(s, dir, nm).value in s.refctr
  {
    match Lookup(s, dir, nm)
    case Some(n) => IncLookup(s, n)
    case None => Attach(Born(s, newId), newId, dir, nm)
  }

  // `forget_node`, past its wait loop.
  ghost function Forget(s: State, n: Id, k: nat): State
    requires TreeInv(s) && n in s.lock && k <= s.nlookup[n]
  {
    var s1 := s.(nlookup := s.nlookup[n := s.nlookup[n] - k]);
    assert HasLine(s.parent, n);
    if s1.nlookup[n] == 0 then Fell(s1, LineOf(s1.parent, n)) else s1
  }

  // `unhash_name`
  ghost function Unhash(s: State, w: Id): State
    requires TreeInv(s)
  {
    if w !in s.parent then s
    else
      var d := s.parent[w];
      DetachKeepsTree(s, w);
      assert HasLine(Detach(s, w).parent, d);
      Fell(Detach(s, w), LineOf(Detach(s, w).parent, d))
  }

  lemma FindKeepsInv(s: State, dir: Id, nm: string, newId: Id)
    requires Inv(s) && dir in s.lock && newId !in s.lock
    ensures Lookup(s, dir, nm).Some? ==> Lookup(s, dir, nm).value in s.lock
    ensures Inv(Find(s, dir, nm, newId))
  {
    if Lookup(s, dir, nm).Some? {
      hide Line, Acyclic, Conserved, HoldInv, LockInv;
      assert s.parent[s.entry[(dir, nm)]] == dir;
      IncLookupKeepsInv(s, s.entry[(dir, nm)]);
    } else {
      hide Line, Entries, Conserved, LockInv;
      BornKeepsInv(s, newId);
      FreshUnused(s, newId);
      var s1 := Born(s, newId);
      assert HasLine(s.parent, dir);
      var cd := LineOf(s.parent, dir);
      LineLive(s, dir, cd);
      forall t | t in s.holds
        ensures newId !in s.holds[t].line
      {
        assert HoldOk(s.parent, s.nlookup, s.holds[t]);
      }
      AttachKeepsInv(s1, newId, dir, nm, cd);
    }
  }

  // A node is forgotten completely only when no path through it is held.
  ghost predicate MayForget(s: State, n: Id, k: nat) {
    && n != ROOT && n in s.lock && n in s.nlookup && 0 < s.nlookup[n] && k <= s.nlookup[n]
    && !(s.nlookup[n] == k && s.lock[n] != 0)
  }

  lemma ForgetKeepsHolds(s: State, n: Id, k: nat)
    requires HoldInv(s.parent, s.nlookup, s.holds) && LockInv(s.lock, s.holds) && MayForget(s, n, k)
    ensures HoldInv(s.parent, s.nlookup[n := s.nlookup[n] - k], s.holds)
  {
    hide Line;
    var nl := s.nlookup[n := s.nlookup[n] - k];
    LockWord(s.lock, s.holds, n);
    forall t | t in s.holds
      ensures HoldOk(s.parent, nl, s.holds[t])
    {
      if nl[n] == 0 {
        assert t !in Readers(s.holds, n) && t !in Writers(s.holds, n);
        HeldDirInLine(s.parent, s.nlookup, s.holds[t]);
      }
    }
  }

  lemma ForgetDropsRef(s: State, n: Id, k: nat)
    requires Inv(s) && MayForget(s, n, k)
    ensures var s1 := s.(nlookup := s.nlookup[n := s.nlookup[n] - k]);
            InvBut(s1, if s1.nlookup[n] == 0 then Some(n) else None)
  {
    hide Entries, Acyclic, Line, HoldInv, LockInv, Kids;
    ForgetKeepsHolds(s, n, k);
  }

  lemma ForgetKeepsInv(s: State, n: Id, k: nat)
    requires Inv(s) && MayForget(s, n, k)
    ensures Inv(Forget(s, n, k))
  {
    hide Entries, Conserved, Line, HoldInv, LockInv;
    ForgetDropsRef(s, n, k);
    var s1 := s.(nlookup := s.nlookup[n := s.nlookup[n] - k]);
    assert HasLine(s.parent, n);
    var c := LineOf(s1.parent, n);
    LineHead(s1.parent, n, c);
    if s1.nlookup[n] == 0 {
      FellKeepsInv(s1, c);
    }
  }

  lemma {:induction false} LineHead(p: map<Id, Id>, n: Id, c: seq<Id>)
    requires Line(p, n, c)
    ensures c != [] && c[0] == n
  {
  }

  lemma UnhashKeepsInv(s: State, w: Id)
    requires Inv(s) && forall t :: t in s.holds ==> w !in s.holds[t].line
    ensures Inv(Unhash(s, w))
  {
    if w in s.parent {
      DetachKeepsInvBut(s, w);
      DetachKeepsTree(s, w);
      EntryPresent(s, w);
      hide Entries, Conserved, Line, HoldInv, LockInv;
      var d, s1 := s.parent[w], Detach(s, w);
      assert HasLine(s1.parent, d);
      var c := LineOf(s1.parent, d);
      LineHead(s1.parent, d, c);
      FellKeepsInv(s1, c);
    }
  }

  // Taking an entry out of a directory the kernel still references deletes nothing.
  lemma UnhashHeld(s: State, w: Id)
    requires Inv(s) && w in s.parent && s.parent[w] in s.nlookup && s.nlookup[s.parent[w]] > 0
    requires forall t :: t in s.holds ==> w !in s.holds[t].line
    ensures var d := s.parent[w];
            d in s.refctr && Unhash(s, w) == Detach(s, w).(refctr := s.refctr[d := s.refctr[d] - 1])
  {
    hide Entries, Line, HoldInv, LockInv, Conserved;
    DetachKeepsInvBut(s, w);
    DetachKeepsTree(s, w);
    EntryPresent(s, w);
    var d, s1 := s.parent[w], Detach(s, w);
    assert HasLine(s1.parent, d);
    var c := LineOf(s1.parent, d);
    LineHead(s1.parent, d, c);
    ReferencedTwice(s1, d);
    assert Elements(c[..0]) == {};
    RemoveNothing(s1);
  }

  lemma ReferencedTwice(s: State, d: Id)
    requires Conserved(s.entry, s.nlookup, s.refctr, Some(d)) && d in s.refctr && s.nlookup[d] > 0
    ensures s.refctr[d] > 1
  {
  }

  // ------------------------------------------------------------------ renaming

  // The kernel serialises the operations on a directory: the entry to be moved is the node write-locked
  // with the first path, the entry to be replaced the one write-locked with the second.  Hiding an open
  // file (`hide_node`) moves it within the directory of one path.
  ghost predicate MayRename(s: State, old_: Token, oldname: string, new_: Token, newname: string, hiding: bool) {
    && old_ in s.holds && new_ in s.holds && (hiding || old_ != new_)
    && (Lookup(s, s.holds[old_].dir, oldname).Some? ==>
          Lookup(s, s.holds[old_].dir, oldname) == s.holds[old_].wnode)
    && (Lookup(s, s.holds[new_].dir, newname).Some? && !hiding ==>
          Lookup(s, s.holds[new_].dir, newname) == s.holds[new_].wnode)
  }

  // The write-locked entry of a held path is in no held chain; in particular not in that of a second
  // path held at the same time.
  lemma WriteHeldOutside(s: State, t: Token, w: Id)
    requires Inv(s) && t in s.holds && s.holds[t].wnode == Some(w)
    ensures w in s.lock && w != ROOT && forall u :: u in s.holds ==> w !in s.holds[u].line
  {
    hide Line, Entries, Acyclic, Conserved;
    assert HoldOk(s.parent, s.nlookup, s.holds[t]);
    forall u | u in s.holds
      ensures w !in s.holds[u].line
    {
      WriterExcludes(s, t, u, w);
    }
  }

  // A rename target is neither the moved node nor below it.
  lemma RenameTargetOutside(s: State, old_: Token, new_: Token, w: Id)
    requires Inv(s) && old_ in s.holds && new_ in s.holds && s.holds[old_].wnode == Some(w)
    ensures HasLine(s.parent, s.holds[new_].dir)
    ensures w !in LineOf(s.parent, s.holds[new_].dir) && w != s.holds[new_].dir
  {
    var h := s.holds[new_];
    WriteHeldOutside(s, old_, w);
    assert HoldOk(s.parent, s.nlookup, h);
    LineUnique(s.parent, h.dir, h.line, LineOf(s.parent, h.dir));
    HeldDirInLine(s.parent, s.nlookup, h);
  }

  // `unhash_name` of a write-locked entry.
  lemma UnhashWriteHeld(s: State, t: Token, nm: string, w: Id)
    requires Inv(s) && t in s.holds && s.holds[t].wnode == Some(w)
    requires Lookup(s, s.holds[t].dir, nm) == Some(w)
    ensures w in s.parent && s.parent[w] == s.holds[t].dir && s.name[w] == nm
    ensures s.parent[w] in s.refctr
    ensures Unhash(s, w) == Detach(s, w).(refctr := s.refctr[s.parent[w] := s.refctr[s.parent[w]] - 1])
    ensures Inv(Unhash(s, w))
  {
    WriteHeldOutside(s, t, w);
    assert HoldOk(s.parent, s.nlookup, s.holds[t]);
    hide Line, Acyclic, Conserved, HoldInv, LockInv;
    assert s.parent[s.entry[(s.holds[t].dir, nm)]] == s.holds[t].dir;
    UnhashHeld(s, w);
    UnhashKeepsInv(s, w);
  }

  // `remove_node`
  ghost function RemoveNode(s: State, t: Token, nm: string): State
    requires TreeInv(s) && t in s.holds
  {
    match Lookup(s, s.holds[t].dir, nm)
    case None => s
    case Some(w) => Unhash(s, w)
  }

  // `rename_node`; `oom` is the failure of the copy of the new name.
  ghost function Rename(s: State, old_: Token, oldname: string, new_: Token, newname: string, hiding: bool,
      oom: bool): State
    requires Inv(s) && MayRename(s, old_, oldname, new_, newname, hiding)
  {
    var olddir, newdir := s.holds[old_].dir, s.holds[new_].dir;
    var node, newnode := Lookup(s, olddir, oldname), Lookup(s, newdir, newname);
    if node.None? || (newnode.Some? && hiding) then s
    else
      var s1 := Replaced(s, new_, newname);
      ReplacedKeepsInv(s, old_, oldname, new_, newname, hiding);
      var s2 := Unhash(s1, node.value);
      RenamedDetached(s, old_, oldname, new_, newname, hiding);
      if oom then s2 else Attach(s2, node.value, newdir, newname)
  }

  // The entry that the rename replaces is unlinked first.
  ghost function Replaced(s: State, new_: Token, newname: string): State
    requires TreeInv(s) && new_ in s.holds
  {
    RemoveNode(s, new_, newname)
  }

  lemma ReplacedKeepsInv(s: State, old_: Token, oldname: string, new_: Token, newname: string, hiding: bool)
    requires Inv(s) && MayRename(s, old_, oldname, new_, newname, hiding)
    requires Lookup(s, s.holds[old_].dir, oldname).Some?
    requires Lookup(s, s.holds[new_].dir, newname).Some? ==> !hiding
    ensures var s1 := Replaced(s, new_, newname);
            && Inv(s1) && s1.holds == s.holds && s1.nlookup == s.nlookup && s1.lock == s.lock
            && s1.entry == s.entry - {(s.holds[new_].dir, newname)}
            && Lookup(s1, s.holds[old_].dir, oldname) == Lookup(s, s.holds[old_].dir, oldname)
  {
    hide Line, Entries, Acyclic, Conserved, HoldInv, LockInv, Unhash;
    var newdir := s.holds[new_].dir;
    if Lookup(s, newdir, newname).Some? {
      var v := Lookup(s, newdir, newname).value;
      var w := Lookup(s, s.holds[old_].dir, oldname).value;
      UnhashWriteHeld(s, new_, newname, v);
      WriteHeldOutside(s, new_, v);
      WriterExcludes(s, new_, old_, v);
      assert v != w;
    } else {
      assert s.entry - {(newdir, newname)} == s.entry;
    }
  }

  lemma RenamedDetached(s: State, old_: Token, oldname: string, new_: Token, newname: string, hiding: bool)
    requires Inv(s) && MayRename(s, old_, oldname, new_, newname, hiding)
    requires Lookup(s, s.holds[old_].dir, oldname).Some?
    requires Lookup(s, s.holds[new_].dir, newname).Some? ==> !hiding
    ensures var w := Lookup(s, s.holds[old_].dir, oldname).value;
            var s1 := Replaced(s, new_, newname);
            TreeInv(s1) && s.holds[new_].dir in Unhash(s1, w).refctr
    ensures var w := Lookup(s, s.holds[old_].dir, oldname).value;
            var s2 := Unhash(Replaced(s, new_, newname), w);
            && Inv(s2) && Attachable(s2, w, s.holds[new_].dir, newname, s.holds[new_].line)
            && s2.holds == s.holds
            && s2.entry == s.entry - {(s.holds[new_].dir, newname)} - {(s.holds[old_].dir, oldname)}
  {
    hide Line, Entries, Acyclic, Conserved, LockInv;
    ReplacedKeepsInv(s, old_, oldname, new_, newname, hiding);
    var s1 := Replaced(s, new_, newname);
    var w := Lookup(s, s.holds[old_].dir, oldname).value;
    UnhashWriteHeld(s1, old_, oldname, w);
    var s2 := Unhash(s1, w);
    WriteHeldOutside(s1, old_, w);
    assert HoldOk(s2.parent, s2.nlookup, s2.holds[new_]);
    HeldDirInLine(s2.parent, s2.nlookup, s2.holds[new_]);
  }

  // Renaming keeps every invariant, so no cycle arises.
  lemma RenameKeepsInv(s: State, old_: Token, oldname: string, new_: Token, newname: string, hiding: bool, oom: bool)
    requires Inv(s) && MayRename(s, old_, oldname, new_, newname, hiding)
    ensures Inv(Rename(s, old_, oldname, new_, newname, hiding, oom))
  {
    hide Line, Entries, Acyclic, Conserved, HoldInv, LockInv, Unhash, Attachable;
    var node := Lookup(s, s.holds[old_].dir, oldname);
    if node.Some? && (Lookup(s, s.holds[new_].dir, newname).Some? ==> !hiding) {
      ReplacedKeepsInv(s, old_, oldname, new_, newname, hiding);
      RenamedDetached(s, old_, oldname, new_, newname, hiding);
      if !oom {
        AttachKeepsInv(Unhash(Replaced(s, new_, newname), node.value), node.value, s.holds[new_].dir, newname,
          s.holds[new_].line);
      }
    }
  }

  // What a rename that goes through does: the moved node is now the entry (newdir, newname) and no longer the
  // old one; every other entry, every lookup count and lock word and every held path is as before.
  lemma RenameEffect(s: State, old_: Token, oldname: string, new_: Token, newname: string, hiding: bool)
    requires Inv(s) && MayRename(s, old_, oldname, new_, newname, hiding)
    requires Lookup(s, s.holds[old_].dir, oldname).Some?
    requires Lookup(s, s.holds[new_].dir, newname).Some? ==> !hiding
    ensures var s' := Rename(s, old_, oldname, new_, newname, hiding, false);
            var w := Lookup(s, s.holds[old_].dir, oldname).value;
            && s'.entry == (s.entry - {(s.holds[old_].dir, oldname)})[(s.holds[new_].dir, newname) := w]
            && w in s'.parent && s'.parent[w] == s.holds[new_].dir && w in s'.name && s'.name[w] == newname
            && s'.nlookup == s.nlookup && s'.lock == s.lock && s'.holds == s.holds
  {
    hide Line, Entries, Acyclic, Conserved, HoldInv, LockInv, Unhash, Attachable;
    var olddir, newdir := s.holds[old_].dir, s.holds[new_].dir;
    var w := Lookup(s, olddir, oldname).value;
    ReplacedKeepsInv(s, old_, oldname, new_, newname, hiding);
    RenamedDetached(s, old_, oldname, new_, newname, hiding);
    var s1 := Replaced(s, new_, newname);
    UnhashWriteHeld(s1, old_, oldname, w);
    assert (s.entry - {(newdir, newname)} - {(olddir, oldname)})[(newdir, newname) := w]
        == (s.entry - {(olddir, oldname)})[(newdir, newname) := w];
  }

  // The other outcomes of a rename: there is nothing to move, the name to hide under is taken, or there is no
  // memory for the new name, and then the node has no name any more.
  lemma RenameFails(s: State, old_: Token, oldname: string, new_: Token, newname: string, hiding: bool, oom: bool)
    requires Inv(s) && MayRename(s, old_, oldname, new_, newname, hiding)
    ensures var s' := Rename(s, old_, oldname, new_, newname, hiding, oom);
            var node, target := Lookup(s, s.holds[old_].dir, oldname), Lookup(s, s.holds[new_].dir, newname);
            && (node.None? || (target.Some? && hiding) ==> s' == s)
            && (node.Some? && (target.Some? ==> !hiding) && oom ==>
                  && s'.entry == s.entry - {(s.holds[new_].dir, newname)} - {(s.holds[old_].dir, oldname)}
                  && node.value !in s'.parent && node.value !in s'.name
                  && s'.nlookup == s.nlookup && s'.lock == s.lock && s'.holds == s.holds)
  {
    hide Line, Entries, Acyclic, Conserved, HoldInv, LockInv, Unhash, Attachable;
    var node := Lookup(s, s.holds[old_].dir, oldname);
    if node.Some? && (Lookup(s, s.holds[new_].dir, newname).Some? ==> !hiding) {
      ReplacedKeepsInv(s, old_, oldname, new_, newname, hiding);
      RenamedDetached(s, old_, oldname, new_, newname, hiding);
      UnhashWriteHeld(Replaced(s, new_, newname), old_, oldname, node.value);
    }
  }

  // ------------------------------------------------------------------ what the other operations do

  // Removing an entry takes it out of its directory, and changes nothing else but the references of the directory.
  lemma RemoveEffect(s: State, t: Token, nm: string)
    requires Inv(s) && t in s.holds
    requires Lookup(s, s.holds[t].dir, nm).Some? ==> Lookup(s, s.holds[t].dir, nm) == s.holds[t].wnode
    ensures var s', dir, w := RemoveNode(s, t, nm), s.holds[t].dir, Lookup(s, s.holds[t].dir, nm);
            && (w.None? ==> s' == s)
            && (w.Some? ==>
                  && s'.entry == s.entry - {(dir, nm)} && Lookup(s', dir, nm).None?
                  && w.value !in s'.parent && w.value !in s'.name
                  && (forall n :: n != w.value ==>
                        && (n in s'.parent <==> n in s.parent)
                        && (n in s.parent ==> s'.parent[n] == s.parent[n]))
                  && dir in s.refctr && s'.refctr == s.refctr[dir := s.refctr[dir] - 1]
                  && s'.nlookup == s.nlookup && s'.lock == s.lock && s'.holds == s.holds)
  {
    hide Line, Entries, Acyclic, Conserved, HoldInv, LockInv, Unhash;
    var e := Lookup(s, s.holds[t].dir, nm);
    if e.Some? {
      UnhashWriteHeld(s, t, nm, e.value);
    }
  }

  // The node that `find_node` returns.
  function Found(s: State, dir: Id, nm: string, newId: Id): Id {
    if Lookup(s, dir, nm).Some? then Lookup(s, dir, nm).value else newId
  }

  // How often the kernel has looked a node up that it has not forgotten.
  function Tally(s: State, n: Id): nat {
    if n in s.nlookup then s.nlookup[n] else 0
  }

  // Finding counts one lookup of the node found, enters a new node under its directory and name, and changes no other
  // entry or count.
  lemma FindEffect(s: State, dir: Id, nm: string, newId: Id)
    requires Inv(s) && dir in s.lock && newId !in s.lock
    ensures Lookup(s, dir, nm).Some? ==> Lookup(s, dir, nm).value in s.lock
    ensures var s', r := Find(s, dir, nm, newId), Found(s, dir, nm, newId);
            && Lookup(s', dir, nm) == Some(r) && r in s'.parent && s'.parent[r] == dir
            && s'.entry == s.entry[(dir, nm) := r]
            && Tally(s', r) == Tally(s, r) + 1 && (Lookup(s, dir, nm).None? ==> Tally(s', r) == 1)
            && (forall n :: n != r ==> Tally(s', n) == Tally(s, n))
            && s'.nlookup.Keys == s.nlookup.Keys + {r}
            && s'.lock == (if Lookup(s, dir, nm).Some? then s.lock else s.lock[newId := 0]) && s'.holds == s.holds
  {
    hide TreeInv, RefInv, HoldInv, LockInv, Find;
    FindKeepsInv(s, dir, nm, newId);
    if Lookup(s, dir, nm).Some? {
      LookupLive(s, dir, nm);
      FindOld(s, dir, nm, newId);
    } else {
      FindNew(s, dir, nm, newId);
    }
  }

  lemma FindOld(s: State, dir: Id, nm: string, newId: Id)
    requires Inv(s) && dir in s.lock && Lookup(s, dir, nm).Some? && Lookup(s, dir, nm).value in s.lock
    ensures var s', r := Find(s, dir, nm, newId), Lookup(s, dir, nm).value;
            && r in s.nlookup && r in s.parent && s.parent[r] == dir && s.entry[(dir, nm) := r] == s.entry
            && s' == IncLookup(s, r) && s'.nlookup == s.nlookup[r := s.nlookup[r] + 1]
            && s' == s.(nlookup := s'.nlookup, refctr := s'.refctr)
  {
    hide Line, Acyclic, Conserved, HoldInv, LockInv;
    assert s.parent[s.entry[(dir, nm)]] == dir;
  }

  lemma FindNew(s: State, dir: Id, nm: string, newId: Id)
    requires Inv(s) && dir in s.lock && newId !in s.lock && Lookup(s, dir, nm).None?
    ensures var s' := Find(s, dir, nm, newId);
            && newId !in s.nlookup && s'.nlookup == s.nlookup[newId := 1] && s'.entry == s.entry[(dir, nm) := newId]
            && s'.parent == s.parent[newId := dir] && s'.lock == s.lock[newId := 0] && s'.holds == s.holds
  {
    hide Line, Entries, Acyclic, Conserved, HoldInv, LockInv;
  }

  lemma FindSelfEffect(s: State, n: Id)
    requires Inv(s) && n in s.lock
    ensures var s' := IncLookup(s, n);
            && Tally(s', n) == Tally(s, n) + 1 && (forall m :: m != n ==> Tally(s', m) == Tally(s, m))
            && s' == s.(nlookup := s'.nlookup, refctr := s'.refctr) && s'.nlookup.Keys == s.nlookup.Keys
  {
    hide Line, Entries, Acyclic, Conserved, HoldInv, LockInv;
  }
}
