/** The libfuse node tree: lookup and reference counts, tree locks and the paths held through them.

    Every step below is taken under `f->lock`, so a run is a sequence of atomic steps.  This module holds
    the state, the meaning of its fields and the invariants; NodeSteps has the steps and the proof that
    they keep the invariants, Fuse the imperative code that performs them.
  */
module NodeTree {
  import opened Common

  type Id = nat

  const ROOT: Id := 1                       // FUSE_ROOT_ID
  const INT_MIN: int := -0x8000_0000
  const INT_MAX: int := 0x7fff_ffff
  const WRITE: int := -1                    // TREELOCK_WRITE
  const WAIT_OFFSET: int := INT_MIN         // TREELOCK_WAIT_OFFSET

  // A path held by a request: the nodes from `dir` up to the root (the root itself is never locked) are
  // read-locked, and `wnode`, if any, is write-locked.
  datatype Hold = Hold(dir: Id, line: seq<Id>, wnode: Option<Id>)

  // A request holds up to two paths.
  datatype Token = Token(request: nat, second: bool)

  /** The nodes reachable through the id table, field by field, and the name table `entry`.
      `parent` and `name` are defined on the nodes whose pointers are not NULL. */
  datatype State = State(
    parent: map<Id, Id>,
    name: map<Id, string>,
    entry: map<(Id, string), Id>,
    nlookup: map<Id, nat>,
    refctr: map<Id, int>,
    lock: map<Id, int>,
    holds: map<Token, Hold>)

  // ------------------------------------------------------------------ parent chains

  // `c` is the parent chain of `n`, up to and including the first node without a parent.
  ghost predicate Line(p: map<Id, Id>, n: Id, c: seq<Id>)
    decreases c
  {
    && c != [] && c[0] == n
    && (if |c| == 1 then n !in p else n in p && Line(p, p[n], c[1..]))
  }

  ghost predicate HasLine(p: map<Id, Id>, n: Id) {
    exists c :: Line(p, n, c)
  }

  ghost function LineOf(p: map<Id, Id>, n: Id): (c: seq<Id>)
    requires HasLine(p, n)
    ensures Line(p, n, c)
  {
    var c :| Line(p, n, c); c
  }

  lemma {:induction false} LineUnique(p: map<Id, Id>, n: Id, c: seq<Id>, d: seq<Id>)
    requires Line(p, n, c) && Line(p, n, d)
    ensures c == d
    decreases c
  {
    if |c| > 1 && |d| > 1 {
      LineUnique(p, p[n], c[1..], d[1..]);
    }
    assert c == [n] + c[1..] && d == [n] + d[1..];
  }

  lemma {:induction false} LineSuffix(p: map<Id, Id>, n: Id, c: seq<Id>, k: nat)
    requires Line(p, n, c) && k < |c|
    ensures Line(p, c[k], c[k..])
    ensures k < |c| - 1 ==> c[k] in p && p[c[k]] == c[k + 1]
    ensures k == |c| - 1 ==> c[k] !in p
    decreases c
  {
    if k > 0 {
      LineSuffix(p, p[n], c[1..], k - 1);
      assert c[1..][k - 1..] == c[k..];
    }
  }

  // A chain that ends has no repetition.
  lemma {:induction false} LineDistinct(p: map<Id, Id>, n: Id, c: seq<Id>)
    requires Line(p, n, c)
    ensures forall i, j :: 0 <= i < j < |c| ==> c[i] != c[j]
  {
    forall i, j | 0 <= i < j < |c|
      ensures c[i] != c[j]
    {
      LineSuffix(p, n, c, i);
      LineSuffix(p, n, c, j);
      if c[i] == c[j] {
        LineUnique(p, c[i], c[i..], c[j..]);
      }
    }
  }

  // The chain is not affected by changes at nodes it does not go through.
  lemma {:induction false} LineFrame(p: map<Id, Id>, q: map<Id, Id>, n: Id, c: seq<Id>)
    requires Line(p, n, c)
    requires forall m :: m in c ==> (m in p <==> m in q) && (m in p ==> p[m] == q[m])
    ensures Line(q, n, c)
    decreases c
  {
    if |c| > 1 {
      assert c == [n] + c[1..];
      LineFrame(p, q, p[n], c[1..]);
    }
  }

  // Redirecting `w` to `d`, whose own chain does not go through `w`, redirects the chains through `w`.
  lemma {:induction false} LineMove(p: map<Id, Id>, n: Id, c: seq<Id>, w: Id, d: Id, cd: seq<Id>) returns (r: seq<Id>)
    requires Line(p, n, c) && Line(p, d, cd) && w !in cd
    ensures Line(p[w := d], n, r)
    decreases c
  {
    if n == w {
      LineFrame(p, p[w := d], d, cd);
      r := [w] + cd;
      assert r[1..] == cd;
    } else if |c| == 1 {
      r := c;
    } else {
      var t := LineMove(p, p[n], c[1..], w, d, cd);
      r := [n] + t;
      assert r[1..] == t;
    }
  }

  // Cutting nodes out of the tree shortens the chains that went through them.
  lemma {:induction false} LineCut(p: map<Id, Id>, n: Id, c: seq<Id>, gone: set<Id>) returns (r: seq<Id>)
    requires Line(p, n, c)
    ensures Line(p - gone, n, r)
    decreases c
  {
    if |c| == 1 || n in gone {
      r := [n];
    } else {
      var t := LineCut(p, p[n], c[1..], gone);
      r := [n] + t;
      assert r[1..] == t;
    }
  }

  // ------------------------------------------------------------------ invariants

  function Lookup(s: State, dir: Id, nm: string): Option<Id> {
    if (dir, nm) in s.entry then Some(s.entry[(dir, nm)]) else None
  }

  ghost predicate Keyed(s: State) {
    && s.lock.Keys == s.nlookup.Keys == s.refctr.Keys
    && ROOT in s.lock && ROOT !in s.parent
    && s.parent.Keys == s.name.Keys
  }

  // The name table holds exactly the nodes that have a parent, under their parent and name.
  ghost predicate Entries(parent: map<Id, Id>, name: map<Id, string>, entry: map<(Id, string), Id>, ids: set<Id>) {
    && (forall n {:trigger parent[n]} :: n in parent ==>
          n in ids && n in name && parent[n] in ids
          && (parent[n], name[n]) in entry && entry[(parent[n], name[n])] == n)
    && (forall k {:trigger entry[k]} :: k in entry ==>
          entry[k] in parent && entry[k] in name && parent[entry[k]] == k.0 && name[entry[k]] == k.1)
  }

  ghost predicate Acyclic(parent: map<Id, Id>, ids: set<Id>) {
    forall n {:trigger HasLine(parent, n)} :: n in ids ==> HasLine(parent, n)
  }

  ghost predicate TreeInv(s: State) {
    && Keyed(s)
    && Entries(s.parent, s.name, s.entry, s.lock.Keys)
    && Acyclic(s.parent, s.lock.Keys)
  }

  ghost function Kids(entry: map<(Id, string), Id>, n: Id): set<(Id, string)> {
    set k | k in entry && k.0 == n
  }

  ghost function Due(entry: map<(Id, string), Id>, nlookup: map<Id, nat>, n: Id): nat
    requires n in nlookup
  {
    (if nlookup[n] > 0 then 1 else 0) + |Kids(entry, n)|
  }

  // Conservation: a node is referenced once by the kernel and once by each node hashed under it; `extra`
  // is a node one of whose references has just lost its referent.
  ghost predicate Conserved(entry: map<(Id, string), Id>, nlookup: map<Id, nat>, refctr: map<Id, int>,
      extra: Option<Id>) {
    && (forall n :: n in refctr ==>
          n in nlookup && refctr[n] > 0 && refctr[n] == Due(entry, nlookup, n) + (if extra == Some(n) then 1 else 0))
    && ROOT in nlookup && nlookup[ROOT] > 0
  }

  ghost predicate RefInv(s: State) {
    Conserved(s.entry, s.nlookup, s.refctr, None)
  }

  ghost predicate HoldOk(parent: map<Id, Id>, nlookup: map<Id, nat>, h: Hold) {
    && Line(parent, h.dir, h.line) && h.line[|h.line| - 1] == ROOT
    && (forall m :: m in h.line ==> m in nlookup)
    && h.dir in nlookup && nlookup[h.dir] > 0
    && (h.wnode.Some? ==> h.wnode.value in nlookup && h.wnode.value != ROOT && nlookup[h.wnode.value] > 0)
  }

  // Every held chain is the current ancestor chain of its directory.
  ghost predicate HoldInv(parent: map<Id, Id>, nlookup: map<Id, nat>, holds: map<Token, Hold>) {
    forall t :: t in holds ==> HoldOk(parent, nlookup, holds[t])
  }

  predicate Reads(h: Hold, n: Id) {
    n in h.line && n != ROOT
  }

  predicate Writes(h: Hold, n: Id) {
    h.wnode == Some(n)
  }

  ghost function Readers(holds: map<Token, Hold>, n: Id): set<Token> {
    set t | t in holds && Reads(holds[t], n)
  }

  ghost function Writers(holds: map<Token, Hold>, n: Id): set<Token> {
    set t | t in holds && Writes(holds[t], n)
  }

  // What a lock word says: a writer excludes readers; readers are counted; a waiting writer shifts the
  // count by INT_MIN.
  predicate Decodes(word: int, readers: nat, writers: nat) {
    if writers > 0 then word == WRITE && writers == 1 && readers == 0
    else word == readers || (readers > 0 && word == WAIT_OFFSET + readers)
  }

  ghost predicate LockInv(lock: map<Id, int>, holds: map<Token, Hold>) {
    && (forall n :: n in lock ==> Decodes(lock[n], |Readers(holds, n)|, |Writers(holds, n)|))
    && |holds| < INT_MAX
  }

  ghost predicate Inv(s: State) {
    TreeInv(s) && RefInv(s) && HoldInv(s.parent, s.nlookup, s.holds) && LockInv(s.lock, s.holds)
  }

  // ------------------------------------------------------------------ consequences

  lemma ReadersBounded(holds: map<Token, Hold>, n: Id)
    ensures |Readers(holds, n)| <= |holds|
  {
    SubsetSize(Readers(holds, n), holds.Keys);
  }

  lemma {:induction false} SubsetSize<T>(a: set<T>, b: set<T>)
    requires a <= b
    ensures |a| <= |b|
  {
    if a != {} {
      var x :| x in a;
      SubsetSize(a - {x}, b - {x});
    }
  }

  // Reading the lock word back.
  lemma LockWord(lock: map<Id, int>, holds: map<Token, Hold>, n: Id)
    requires LockInv(lock, holds) && n in lock
    ensures lock[n] == 0 <==> Readers(holds, n) == {} && Writers(holds, n) == {}
    ensures lock[n] == WRITE <==> Writers(holds, n) != {}
    ensures lock[n] >= 0 ==> lock[n] == |Readers(holds, n)| && Writers(holds, n) == {}
    ensures INT_MIN < lock[n] < INT_MAX
  {
    ReadersBounded(holds, n);
  }

  // A write-held node is in no held chain and has no second writer.
  lemma WriterExcludes(s: State, t: Token, u: Token, n: Id)
    requires LockInv(s.lock, s.holds) && t in s.holds && u in s.holds && n in s.lock && Writes(s.holds[t], n)
    ensures !Reads(s.holds[u], n) && (Writes(s.holds[u], n) ==> t == u)
  {
    var w := Writers(s.holds, n);
    assert t in w;
    assert |w| > 0;
    assert Readers(s.holds, n) == {};
    assert u in Readers(s.holds, n) <==> Reads(s.holds[u], n);
    if Writes(s.holds[u], n) && t != u {
      SubsetSize({t, u}, w);
    }
  }

  // A read-held node above the directory of its path has that path's next node hashed under it.
  lemma ReadHeldHasKid(s: State, h: Hold, n: Id)
    requires TreeInv(s) && HoldOk(s.parent, s.nlookup, h) && Reads(h, n) && n != h.dir
    ensures Kids(s.entry, n) != {}
  {
    var k :| 0 <= k < |h.line| && h.line[k] == n;
    LineSuffix(s.parent, h.dir, h.line, k - 1);
    assert (n, s.name[h.line[k - 1]]) in Kids(s.entry, n);
  }

  // A node that nothing references any more is in no held path.
  lemma UnreferencedFree(s: State, n: Id)
    requires TreeInv(s) && HoldInv(s.parent, s.nlookup, s.holds) && n in s.lock && s.nlookup[n] == 0 &&
      Kids(s.entry, n) == {}
    ensures forall t :: t in s.holds ==> !Reads(s.holds[t], n) && !Writes(s.holds[t], n)
  {
    forall t | t in s.holds && Reads(s.holds[t], n)
      ensures false
    {
      assert HoldOk(s.parent, s.nlookup, s.holds[t]);
      ReadHeldHasKid(s, s.holds[t], n);
    }
    forall t | t in s.holds
      ensures !Writes(s.holds[t], n)
    {
      assert HoldOk(s.parent, s.nlookup, s.holds[t]);
    }
  }

  // ... and so it is not locked: `delete_node`'s assertion.
  lemma UnreferencedUnlocked(s: State, n: Id)
    requires TreeInv(s) && HoldInv(s.parent, s.nlookup, s.holds) && LockInv(s.lock, s.holds) && n in s.lock &&
      s.nlookup[n] == 0 && Kids(s.entry, n) == {}
    ensures s.lock[n] == 0
  {
    UnreferencedFree(s, n);
    assert Readers(s.holds, n) == {} && Writers(s.holds, n) == {};
  }
}
