/** POSIX byte-range (advisory record) locks, kept by libfuse in one list per node.

    The list is edited in place by `locks_insert`: neighbouring ranges of the same type are merged,
    overlapped ranges of another type are truncated, split or deleted.  Its meaning is the pointwise
    map (owner, offset) -> lock type of `fcntl()` record locking (IEEE Std 1003.1-2008).
  */
module RecordLocks {

  // off_t is a signed 64-bit integer; arithmetic on it is checked for overflow.
  newtype Offset = x: int | -0x8000_0000_0000_0000 <= x <= 0x7fff_ffff_ffff_ffff

  const OFFSET_MAX: Offset := 0x7fff_ffff_ffff_ffff

  datatype LockType = F_RDLCK | F_WRLCK | F_UNLCK

  datatype Lock = Lock(ltype: LockType, start: Offset, end: Offset, pid: int, owner: nat)

  datatype Flock = Flock(ltype: LockType, start: Offset, len: Offset, pid: int)

  datatype Errno = Ok | ENOLCK

  // ------------------------------------------------------------------ meaning of a lock list

  predicate Covers(l: Lock, o: nat, x: Offset) {
    l.owner == o && l.start <= x <= l.end
  }

  function TypeAt(locks: seq<Lock>, o: nat, x: Offset): LockType {
    if locks == [] then F_UNLCK
    else if Covers(locks[0], o, x) then locks[0].ltype
    else TypeAt(locks[1..], o, x)
  }

  // A request as callers build it: a non-empty range of non-negative offsets.
  predicate Request(l: Lock) {
    0 <= l.start <= l.end
  }

  // The POSIX effect of a granted request on the pointwise map.
  function Overlay(locks: seq<Lock>, req: Lock, o: nat, x: Offset): LockType {
    if Covers(req, o, x) then req.ltype else TypeAt(locks, o, x)
  }

  predicate Before(a: Lock, b: Lock) {
    a.owner == b.owner ==>
      a.end < b.start && (a.ltype == b.ltype ==> a.end < b.start - 1)
  }

  // Ranges are non-empty; every owner's sublist is sorted, disjoint and maximally merged.
  ghost predicate Canonical(locks: seq<Lock>) {
    && (forall k :: 0 <= k < |locks| ==> Request(locks[k]) && locks[k].ltype != F_UNLCK)
    && (forall j, k :: 0 <= j < k < |locks| ==> Before(locks[j], locks[k]))
  }

  ghost predicate Held(locks: seq<Lock>) {
    forall k :: 0 <= k < |locks| ==> locks[k].ltype != F_UNLCK
  }

  lemma {:induction false} TypeAtConcat(a: seq<Lock>, b: seq<Lock>, o: nat, x: Offset)
    requires Held(a)
    ensures TypeAt(a + b, o, x) == if TypeAt(a, o, x) != F_UNLCK then TypeAt(a, o, x) else TypeAt(b, o, x)
  {
    if a == [] {
      assert a + b == b;
    } else {
      TypeAtConcat(a[1..], b, o, x);
      assert (a + b)[1..] == a[1..] + b;
    }
  }

  lemma {:induction false} TypeAtMiss(a: seq<Lock>, o: nat, x: Offset)
    requires forall k :: 0 <= k < |a| ==> !Covers(a[k], o, x)
    ensures TypeAt(a, o, x) == F_UNLCK
  {
    if a != [] {
      TypeAtMiss(a[1..], o, x);
    }
  }

  // The witness behind a locked offset.
  lemma {:induction false} TypeAtHit(a: seq<Lock>, o: nat, x: Offset) returns (k: nat)
    requires TypeAt(a, o, x) != F_UNLCK
    ensures k < |a| && Covers(a[k], o, x) && a[k].ltype == TypeAt(a, o, x)
  {
    if Covers(a[0], o, x) {
      k := 0;
    } else {
      var j := TypeAtHit(a[1..], o, x);
      k := j + 1;
    }
  }

  // In a canonical list the covering record is unique, so its position does not matter.
  lemma {:induction false} TypeAtOnly(a: seq<Lock>, k: nat, o: nat, x: Offset)
    requires Canonical(a) && k < |a| && Covers(a[k], o, x)
    ensures TypeAt(a, o, x) == a[k].ltype
  {
    assert a == a[..k] + ([a[k]] + a[k + 1..]);
    forall j | 0 <= j < k
      ensures !Covers(a[..k][j], o, x)
    {
      assert Before(a[j], a[k]);
    }
    TypeAtMiss(a[..k], o, x);
    TypeAtConcat(a[..k], [a[k]] + a[k + 1..], o, x);
  }

  // ------------------------------------------------------------------ one edit of the list

  // The part of the list already passed lies strictly below the request.
  ghost predicate Passed(locks: seq<Lock>, i: nat, req: Lock)
    requires i <= |locks|
  {
    forall k :: 0 <= k < i ==> Before(locks[k], req)
  }

  ghost predicate SameOverlay(a: seq<Lock>, r: Lock, b: seq<Lock>, q: Lock) {
    forall o, x :: Overlay(a, r, o, x) == Overlay(b, q, o, x)
  }

  lemma SameAtFirst(locks: seq<Lock>, req: Lock)
    ensures SameOverlay(locks, req, locks, req)
  {
  }

  // The state of the scan: `locks` and `lock` are what the first `i` steps made of the original list
  // and request, and still denote the same overlay.
  ghost predicate Scan(locks: seq<Lock>, i: nat, lock: Lock, orig: seq<Lock>, req: Lock) {
    && Canonical(locks) && i <= |locks| && Request(lock)
    && lock.owner == req.owner && lock.ltype == req.ltype && lock.start <= req.start
    && Passed(locks, i, lock)
    && SameOverlay(locks, lock, orig, req)
  }

  // Replacing the middle of a list changes the overlay nowhere if the two middles agree outside the
  // request, and the request grows only over offsets the old middle held with the request's type.
  lemma {:induction false} EditKeepsOverlay(pre: seq<Lock>, mid: seq<Lock>, mid': seq<Lock>, post: seq<Lock>,
                         req: Lock, req': Lock, o: nat, x: Offset)
    requires Held(pre) && Held(mid) && Held(mid')
    requires req'.owner == req.owner && req'.ltype == req.ltype
    requires Covers(req, o, x) ==> Covers(req', o, x)
    requires !Covers(req', o, x) ==> TypeAt(mid', o, x) == TypeAt(mid, o, x)
    requires Covers(req', o, x) && !Covers(req, o, x) ==>
               TypeAt(mid, o, x) == req.ltype != F_UNLCK && TypeAt(pre, o, x) == F_UNLCK
    ensures Overlay(pre + mid' + post, req', o, x) == Overlay(pre + mid + post, req, o, x)
  {
    TypeAtConcat(pre, mid, o, x);
    TypeAtConcat(pre, mid', o, x);
    TypeAtConcat(pre + mid, post, o, x);
    TypeAtConcat(pre + mid', post, o, x);
  }

  lemma {:induction false} PassedFree(locks: seq<Lock>, i: nat, req: Lock, x: Offset)
    requires i <= |locks| && Passed(locks, i, req) && req.start <= x
    ensures TypeAt(locks[..i], req.owner, x) == F_UNLCK
  {
    TypeAtMiss(locks[..i], req.owner, x);
  }

  // A touching record of the same type, not already containing the request, is merged into it.
  lemma Absorb(locks: seq<Lock>, i: nat, lock: Lock, grown: Lock, orig: seq<Lock>, req: Lock)
    requires Scan(locks, i, lock, orig, req) && i < |locks|
    requires locks[i].owner == lock.owner && locks[i].ltype == lock.ltype
    requires locks[i].end >= lock.start - 1 && lock.end >= locks[i].start - 1
    requires grown == lock.(start := if locks[i].start < lock.start then locks[i].start else lock.start,
                            end := if lock.end < locks[i].end then locks[i].end else lock.end)
    ensures Scan(locks[..i] + locks[i + 1..], i, grown, orig, req)
  {
    var pre, mid, post := locks[..i], [locks[i]], locks[i + 1..];
    assert locks == pre + mid + post;
    forall k | 0 <= k < i
      ensures Before(locks[k], grown)
    {
      assert Before(locks[k], locks[i]) && Before(locks[k], lock);
    }
    forall o, x
      ensures Overlay(pre + post, grown, o, x) == Overlay(orig, req, o, x)
    {
      assert Overlay(locks, lock, o, x) == Overlay(orig, req, o, x);
      if Covers(grown, o, x) && !Covers(lock, o, x) {
        PassedFree(locks, i, grown, x);
      }
      EditKeepsOverlay(pre, mid, [], post, lock, grown, o, x);
      assert pre + [] + post == pre + post;
    }
  }

  // The request is cut out of a record of another type; `rest` lists what is left of the record.
  lemma {:induction false} CutOut(locks: seq<Lock>, i: nat, rest: seq<Lock>, lock: Lock, orig: seq<Lock>, req: Lock)
    requires Scan(locks, i, lock, orig, req) && i < |locks|
    requires locks[i].owner == lock.owner && locks[i].ltype != lock.ltype
    requires Canonical(rest)
    requires forall k :: 0 <= k < |rest| ==>
               rest[k].owner == lock.owner && rest[k].ltype == locks[i].ltype
               && locks[i].start <= rest[k].start && rest[k].end <= locks[i].end
    requires forall o, x :: !Covers(lock, o, x) ==> TypeAt(rest, o, x) == TypeAt([locks[i]], o, x)
    ensures Scan(locks[..i] + rest + locks[i + 1..], i, lock, orig, req)
  {
    var pre, mid, post := locks[..i], [locks[i]], locks[i + 1..];
    assert locks == pre + mid + post;
    forall o, x
      ensures Overlay(pre + rest + post, lock, o, x) == Overlay(orig, req, o, x)
    {
      assert Overlay(locks, lock, o, x) == Overlay(orig, req, o, x);
      EditKeepsOverlay(pre, mid, rest, post, lock, lock, o, x);
    }
    CanonicalReplace(pre, locks[i], rest, post);
  }

  // What is left of a record when a request overlapping it is cut out.
  function Pieces(l: Lock, lock: Lock): seq<Lock>
    requires Request(l) && Request(lock) && lock.start <= l.end && l.start <= lock.end
  {
    (if l.start < lock.start then [l.(end := lock.start - 1)] else [])
    + (if lock.end < l.end then [l.(start := lock.end + 1)] else [])
  }

  lemma CutPieces(locks: seq<Lock>, i: nat, lock: Lock, orig: seq<Lock>, req: Lock)
    requires Scan(locks, i, lock, orig, req) && i < |locks|
    requires locks[i].owner == lock.owner && locks[i].ltype != lock.ltype
    requires lock.start <= locks[i].end && locks[i].start <= lock.end
    ensures Request(locks[i]) && Request(lock)
    ensures Scan(locks[..i] + Pieces(locks[i], lock) + locks[i + 1..], i, lock, orig, req)
  {
    var l, rest := locks[i], Pieces(locks[i], lock);
    forall o, x | !Covers(lock, o, x)
      ensures TypeAt(rest, o, x) == TypeAt([l], o, x)
    {
      PiecesAt(l, lock, o, x);
    }
    CutOut(locks, i, rest, lock, orig, req);
  }

  lemma {:induction false} PiecesAt(l: Lock, lock: Lock, o: nat, x: Offset)
    requires Request(l) && Request(lock) && lock.start <= l.end && l.start <= lock.end
    requires l.owner == lock.owner && !Covers(lock, o, x)
    ensures TypeAt(Pieces(l, lock), o, x) == TypeAt([l], o, x)
  {
    var rest := Pieces(l, lock);
    assert [l][1..] == [];
    assert |rest| > 0 ==> rest[1..] == if |rest| == 2 then [rest[1]] else [];
    assert |rest| == 2 ==> [rest[1]][1..] == [];
  }

  lemma CanonicalReplace(pre: seq<Lock>, l: Lock, rest: seq<Lock>, post: seq<Lock>)
    requires Canonical(pre + [l] + post) && Canonical(rest)
    requires forall k :: 0 <= k < |rest| ==>
               rest[k].owner == l.owner && rest[k].ltype == l.ltype
               && l.start <= rest[k].start && rest[k].end <= l.end
    ensures Canonical(pre + rest + post)
  {
    var all, res := pre + [l] + post, pre + rest + post;
    var p, r := |pre|, |rest|;
    assert all[p] == l;
    forall k | 0 <= k < |res|
      ensures Request(res[k]) && res[k].ltype != F_UNLCK
    {
      if !(p <= k < p + r) {
        assert res[k] == all[if k < p then k else k - r + 1];
      }
    }
    forall j, k | 0 <= j < k < |res|
      ensures Before(res[j], res[k])
    {
      var j' := if j < p then j else if j < p + r then p else j - r + 1;
      var k' := if k < p then k else if k < p + r then p else k - r + 1;
      if j' < k' {
        assert Before(all[j'], all[k']);
      } else {
        assert Before(rest[j - p], rest[k - p]);
      }
    }
  }

  // Inserting the request where everything of its owner below has been passed and everything above
  // starts beyond it realises the overlay; an unlock needs no insertion.
  lemma Splice(locks: seq<Lock>, i: nat, lock: Lock, orig: seq<Lock>, req: Lock)
    requires Scan(locks, i, lock, orig, req)
    requires i < |locks| ==> locks[i].owner == lock.owner && Before(lock, locks[i])
    ensures var res := if lock.ltype == F_UNLCK then locks else locks[..i] + [lock] + locks[i..];
            Canonical(res) && forall o, x :: TypeAt(res, o, x) == Overlay(orig, req, o, x)
  {
    hide Overlay, TypeAt, Canonical;
    SpliceBefore(locks, i, lock);
    var res := if lock.ltype == F_UNLCK then locks else locks[..i] + [lock] + locks[i..];
    if lock.ltype != F_UNLCK {
      SpliceCanonical(locks, i, lock);
    }
    forall o, x
      ensures TypeAt(res, o, x) == Overlay(orig, req, o, x)
    {
      assert Overlay(locks, lock, o, x) == Overlay(orig, req, o, x);
      SpliceAt(locks, i, lock, o, x);
    }
  }

  lemma SpliceBefore(locks: seq<Lock>, i: nat, lock: Lock)
    requires Canonical(locks) && i <= |locks|
    requires i < |locks| ==> locks[i].owner == lock.owner && Before(lock, locks[i])
    ensures forall k :: i <= k < |locks| ==> Before(lock, locks[k])
  {
    forall k | i < k < |locks|
      ensures Before(lock, locks[k])
    {
      assert Before(locks[i], locks[k]);
    }
  }

  lemma SpliceCanonical(locks: seq<Lock>, i: nat, lock: Lock)
    requires Canonical(locks) && i <= |locks| && Request(lock) && lock.ltype != F_UNLCK && Passed(locks, i, lock)
    requires forall k :: i <= k < |locks| ==> Before(lock, locks[k])
    ensures Canonical(locks[..i] + [lock] + locks[i..])
  {
    hide Before;
    var res := locks[..i] + [lock] + locks[i..];
    assert forall k :: 0 <= k < |res| ==> res[k] == if k < i then locks[k] else if k == i then lock else locks[k - 1];
  }

  // Every offset has the request's type inside its range, and its old type elsewhere.
  lemma {:induction false} SpliceAt(locks: seq<Lock>, i: nat, lock: Lock, o: nat, x: Offset)
    requires Canonical(locks) && i <= |locks| && Request(lock) && Passed(locks, i, lock)
    requires forall k :: i <= k < |locks| ==> Before(lock, locks[k])
    ensures var res := if lock.ltype == F_UNLCK then locks else locks[..i] + [lock] + locks[i..];
            TypeAt(res, o, x) == Overlay(locks, lock, o, x)
  {
    var pre, post := locks[..i], locks[i..];
    assert locks == pre + post;
    if lock.ltype == F_UNLCK {
      if Covers(lock, o, x) { TypeAtMiss(locks, o, x); }
    } else {
      hide Canonical;
      assert Held(pre) && Held(pre + [lock]) by { HeldSplice(locks, i, lock); }
      TypeAtConcat(pre, post, o, x);
      TypeAtConcat(pre, [lock], o, x);
      TypeAtConcat(pre + [lock], post, o, x);
      if Covers(lock, o, x) { PassedFree(locks, i, lock, x); }
    }
  }

  lemma HeldSplice(locks: seq<Lock>, i: nat, lock: Lock)
    requires Canonical(locks) && i <= |locks| && lock.ltype != F_UNLCK
    ensures Held(locks[..i]) && Held(locks[..i] + [lock])
  {
  }

  // A record of the request's type that contains it: the list already denotes the overlay.
  lemma {:induction false} Contained(locks: seq<Lock>, i: nat, lock: Lock, orig: seq<Lock>, req: Lock)
    requires Scan(locks, i, lock, orig, req) && i < |locks|
    requires locks[i].owner == lock.owner && locks[i].ltype == lock.ltype
    requires locks[i].start <= lock.start && lock.end <= locks[i].end
    ensures forall o, x :: TypeAt(locks, o, x) == Overlay(orig, req, o, x)
  {
    forall o, x
      ensures TypeAt(locks, o, x) == Overlay(orig, req, o, x)
    {
      assert Overlay(locks, lock, o, x) == Overlay(orig, req, o, x);
      if Covers(lock, o, x) { TypeAtOnly(locks, i, o, x); }
    }
  }

  // ------------------------------------------------------------------ the list is a normal form

  function OwnedBy(locks: seq<Lock>, o: nat): (r: seq<Lock>) {
    if locks == [] then []
    else if locks[0].owner == o then [locks[0].(pid := 0)] + OwnedBy(locks[1..], o)
    else OwnedBy(locks[1..], o)
  }

  lemma {:induction false} OwnedByMeaning(locks: seq<Lock>, o: nat)
    requires Canonical(locks)
    ensures Canonical(OwnedBy(locks, o))
    ensures forall k :: 0 <= k < |OwnedBy(locks, o)| ==>
              OwnedBy(locks, o)[k].owner == o && OwnedBy(locks, o)[k].pid == 0
    ensures forall l :: l in OwnedBy(locks, o) ==> exists k :: 0 <= k < |locks| && l == locks[k].(pid := 0)
    ensures forall x :: TypeAt(OwnedBy(locks, o), o, x) == TypeAt(locks, o, x)
  {
    if locks != [] {
      var tail := OwnedBy(locks[1..], o);
      OwnedByMeaning(locks[1..], o);
      if locks[0].owner == o {
        var r := OwnedBy(locks, o);
        assert r[1..] == tail;
        forall k | 1 <= k < |r|
          ensures Before(r[0], r[k])
        {
          assert r[k] in tail;
          var m :| 0 <= m < |locks[1..]| && r[k] == locks[1..][m].(pid := 0);
          assert Before(locks[0], locks[m + 1]);
        }
      }
    }
  }

  lemma {:induction false} TypeAtHead(a: seq<Lock>, o: nat, x: Offset)
    requires Canonical(a) && forall k :: 0 <= k < |a| ==> a[k].owner == o
    ensures a == [] || x < a[0].start ==> TypeAt(a, o, x) == F_UNLCK
    ensures a != [] && a[0].start <= x <= a[0].end ==> TypeAt(a, o, x) == a[0].ltype
    ensures a != [] && a[0].end < x ==> TypeAt(a, o, x) == TypeAt(a[1..], o, x)
    ensures a != [] && x <= a[0].end ==> TypeAt(a[1..], o, x) == F_UNLCK
    ensures a != [] && a[0].end < OFFSET_MAX && x == a[0].end + 1 ==> TypeAt(a, o, x) != a[0].ltype
  {
    if a != [] {
      assert forall k :: 0 < k < |a| ==> Before(a[0], a[k]);
      assert forall k :: 0 <= k < |a[1..]| ==> a[1..][k] == a[k + 1];
      if x <= a[0].end {
        TypeAtMiss(a[1..], o, x);
        if x < a[0].start { TypeAtMiss(a, o, x); }
      } else if a[0].end < OFFSET_MAX && x == a[0].end + 1 && TypeAt(a, o, x) == a[0].ltype {
        var k := TypeAtHit(a, o, x);
      }
    }
  }

  // Two canonical lists with the same meaning hold the same ranges, owner by owner, in the same order.
  lemma {:induction false} NormalFormOwned(a: seq<Lock>, b: seq<Lock>, o: nat)
    requires Canonical(a) && Canonical(b)
    requires forall k :: 0 <= k < |a| ==> a[k].owner == o && a[k].pid == 0
    requires forall k :: 0 <= k < |b| ==> b[k].owner == o && b[k].pid == 0
    requires forall x :: TypeAt(a, o, x) == TypeAt(b, o, x)
    ensures a == b
  {
    if a == [] || b == [] {
      if a != [] { TypeAtHead(a, o, a[0].start); }
      if b != [] { TypeAtHead(b, o, b[0].start); }
    } else {
      TypeAtHead(a, o, a[0].start);
      TypeAtHead(b, o, a[0].start);
      TypeAtHead(a, o, b[0].start);
      TypeAtHead(b, o, b[0].start);
      assert a[0].start == b[0].start && a[0].ltype == b[0].ltype;
      if a[0].end < b[0].end {
        var x := a[0].end + 1;
        TypeAtHead(b, o, x);
        TypeAtHead(a, o, x);
      } else if b[0].end < a[0].end {
        var x := b[0].end + 1;
        TypeAtHead(a, o, x);
        TypeAtHead(b, o, x);
      }
      forall x
        ensures TypeAt(a[1..], o, x) == TypeAt(b[1..], o, x)
      {
        TypeAtHead(a, o, x);
        TypeAtHead(b, o, x);
      }
      NormalFormOwned(a[1..], b[1..], o);
      assert a == [a[0]] + a[1..] && b == [b[0]] + b[1..];
    }
  }

  ghost predicate SameMeaning(a: seq<Lock>, b: seq<Lock>, o: nat) {
    forall x :: TypeAt(a, o, x) == TypeAt(b, o, x)
  }

  lemma {:induction false} NormalForm(a: seq<Lock>, b: seq<Lock>, o: nat)
    requires Canonical(a) && Canonical(b)
    ensures OwnedBy(a, o) == OwnedBy(b, o) <==> SameMeaning(a, b, o)
  {
    OwnedByMeaning(a, o);
    OwnedByMeaning(b, o);
    if SameMeaning(a, b, o) {
      NormalFormOwned(OwnedBy(a, o), OwnedBy(b, o), o);
    }
  }

  // ------------------------------------------------------------------ conflicts between owners

  predicate Clash(held: LockType, wanted: LockType) {
    held != F_UNLCK && (held == F_WRLCK || wanted == F_WRLCK)
  }

  predicate Conflicts(l: Lock, req: Lock) {
    l.owner != req.owner && req.start <= l.end && l.start <= req.end
    && (l.ltype == F_WRLCK || req.ltype == F_WRLCK)
  }

  // `locks_conflict`: the first conflicting record, or the end of the list; there is one exactly if some
  // other owner holds a clashing lock on some requested offset.
  method FindConflict(locks: seq<Lock>, req: Lock) returns (i: nat)
    requires Canonical(locks) && Request(req)
    ensures i <= |locks| && (i < |locks| ==> Conflicts(locks[i], req))
    ensures forall k :: 0 <= k < i ==> !Conflicts(locks[k], req)
    ensures i < |locks| <==>
              exists o, x :: o != req.owner && req.start <= x <= req.end && Clash(TypeAt(locks, o, x), req.ltype)
  {
    i := 0;
    while i < |locks| && !Conflicts(locks[i], req)
      invariant i <= |locks|
      invariant forall k :: 0 <= k < i ==> !Conflicts(locks[k], req)
    {
      i := i + 1;
    }
    if i < |locks| {
      var l := locks[i];
      var x := if req.start <= l.start then l.start else req.start;
      TypeAtOnly(locks, i, l.owner, x);
    } else {
      forall o, x | o != req.owner && req.start <= x <= req.end && Clash(TypeAt(locks, o, x), req.ltype)
        ensures false
      {
        var k := TypeAtHit(locks, o, x);
      }
    }
  }

  // No offset is locked by two owners, one of them for writing.
  ghost predicate Exclusive(locks: seq<Lock>) {
    forall o, p, x :: o != p && TypeAt(locks, p, x) != F_UNLCK ==> !Clash(TypeAt(locks, o, x), TypeAt(locks, p, x))
  }

  // Inserting keeps writers exclusive iff `locks_conflict` finds nothing against the request, or it is an unlock.
  // (`fuse_lib_setlk` inserts without asking: it relies on the file system having granted the lock.)
  lemma {:induction false} InsertExclusiveIff(locks: seq<Lock>, locks': seq<Lock>, req: Lock)
    requires Canonical(locks) && Exclusive(locks) && Request(req)
    requires forall o, x :: TypeAt(locks', o, x) == Overlay(locks, req, o, x)
    ensures Exclusive(locks') <==> req.ltype == F_UNLCK || forall k :: 0 <= k < |locks| ==> !Conflicts(locks[k], req)
  {
    if req.ltype == F_UNLCK || forall k :: 0 <= k < |locks| ==> !Conflicts(locks[k], req) {
      NoConflictExclusive(locks, locks', req);
    } else {
      var k :| 0 <= k < |locks| && Conflicts(locks[k], req);
      ConflictNotExclusive(locks, locks', req, k);
    }
  }

  lemma {:induction false} ConflictNotExclusive(locks: seq<Lock>, locks': seq<Lock>, req: Lock, k: nat)
    requires Canonical(locks) && Request(req) && k < |locks| && Conflicts(locks[k], req) && req.ltype != F_UNLCK
    requires forall o, x :: TypeAt(locks', o, x) == Overlay(locks, req, o, x)
    ensures !Exclusive(locks')
  {
    var l := locks[k];
    var x := if req.start <= l.start then l.start else req.start;
    TypeAtOnly(locks, k, l.owner, x);
    assert TypeAt(locks', l.owner, x) == l.ltype && TypeAt(locks', req.owner, x) == req.ltype;
  }

  lemma {:induction false} NoConflictExclusive(locks: seq<Lock>, locks': seq<Lock>, req: Lock)
    requires Canonical(locks) && Exclusive(locks)
    requires forall o, x :: TypeAt(locks', o, x) == Overlay(locks, req, o, x)
    requires req.ltype == F_UNLCK || forall k :: 0 <= k < |locks| ==> !Conflicts(locks[k], req)
    ensures Exclusive(locks')
  {
    forall o, p, x | o != p && TypeAt(locks', p, x) != F_UNLCK
      ensures !Clash(TypeAt(locks', o, x), TypeAt(locks', p, x))
    {
      assert TypeAt(locks, p, x) != F_UNLCK ==> !Clash(TypeAt(locks, o, x), TypeAt(locks, p, x));
      var other := if Covers(req, o, x) then p else o;
      if TypeAt(locks, other, x) != F_UNLCK {
        var k := TypeAtHit(locks, other, x);
      }
    }
  }

  // ------------------------------------------------------------------ struct flock conversions

  // l_len == 0 means "to the end of the file".
  predicate FlockOk(f: Flock) {
    0 <= f.start && 0 <= f.len && f.start as int + f.len as int - 1 <= OFFSET_MAX as int
  }

  function FlockToLock(f: Flock, owner: nat): (l: Lock)
    requires FlockOk(f)
    ensures Request(l)
    ensures forall x :: Covers(l, owner, x) <==>
      f.start <= x && (f.len == 0 || x as int < f.start as int + f.len as int)
  {
    Lock(f.ltype, f.start, if f.len != 0 then f.start + (f.len - 1) else OFFSET_MAX, f.pid, owner)
  }

  function LockToFlock(l: Lock): (f: Flock)
    requires Request(l)
    ensures FlockOk(f)
  {
    Flock(l.ltype, l.start, if l.end == OFFSET_MAX then 0 else l.end - l.start + 1, l.pid)
  }

  lemma FlockRoundTrip(l: Lock)
    requires Request(l)
    ensures FlockToLock(LockToFlock(l), l.owner) == l
  {
  }

  // ------------------------------------------------------------------ the per-node list

  // ------------------------------------------------------------------ whose record it is

  // A record that is left of `l`, or all of it: the same but for a narrower range.
  predicate PieceOf(p: Lock, l: Lock) {
    p == l.(start := p.start, end := p.end) && l.start <= p.start && p.end <= l.end
  }

  ghost predicate OldPiece(p: Lock, orig: seq<Lock>) {
    exists j :: 0 <= j < |orig| && PieceOf(p, orig[j])
  }

  // The record of the request, with what it was merged with.
  predicate Recorded(p: Lock, req: Lock) {
    p.owner == req.owner && p.ltype == req.ltype && p.pid == req.pid && p.start <= req.start && req.end <= p.end
  }

  ghost predicate Traced(locks: seq<Lock>, orig: seq<Lock>) {
    forall k :: 0 <= k < |locks| ==> OldPiece(locks[k], orig)
  }

  lemma TracedAtFirst(locks: seq<Lock>)
    ensures Traced(locks, locks)
  {
    forall k | 0 <= k < |locks|
      ensures OldPiece(locks[k], locks)
    {
      assert PieceOf(locks[k], locks[k]);
    }
  }

  // Every record is what is left of an old one, or that of the request.
  ghost predicate Accounted(locks: seq<Lock>, orig: seq<Lock>, req: Lock) {
    forall k :: 0 <= k < |locks| ==> OldPiece(locks[k], orig) || Recorded(locks[k], req)
  }

  lemma TracedAll(locks: seq<Lock>, i: nat, lock: Lock, orig: seq<Lock>, req: Lock)
    requires Traced(locks, orig) && i <= |locks|
    ensures Accounted(locks, orig, req)
    ensures Recorded(lock, req) ==> Accounted(locks[..i] + [lock] + locks[i..], orig, req)
  {
    hide OldPiece, Recorded;
  }

  lemma TracedCut(locks: seq<Lock>, i: nat, rest: seq<Lock>, orig: seq<Lock>)
    requires Traced(locks, orig) && i < |locks| && forall k :: 0 <= k < |rest| ==> PieceOf(rest[k], locks[i])
    ensures Traced(locks[..i] + rest + locks[i + 1..], orig)
  {
    forall k | 0 <= k < |rest|
      ensures OldPiece(rest[k], orig)
    {
      var j :| 0 <= j < |orig| && PieceOf(locks[i], orig[j]);
      assert PieceOf(rest[k], orig[j]);
    }
  }

  // How the scan goes on after a record.
  datatype Next = Skip | Again | Stop | Done | Split

  lemma ScanRequests(locks: seq<Lock>, i: nat, lock: Lock, orig: seq<Lock>, req: Lock)
    requires Scan(locks, i, lock, orig, req) && i < |locks|
    ensures Request(locks[i]) && Request(lock) && locks[i].ltype != F_UNLCK
  {
    hide SameOverlay;
  }

  class LockList {
    var locks: seq<Lock>

    constructor ()
      ensures locks == []
    {
      locks := [];
    }

    // `locks_insert`.  `allocOk` is the outcome of the two allocations, where they are made.
    method Insert(req: Lock, allocOk: bool) returns (err: Errno)
      requires Canonical(locks) && Request(req)
      modifies this
      ensures Canonical(locks)
      ensures err == Ok <==> allocOk || (req.ltype == F_UNLCK && req.start == 0 && req.end == OFFSET_MAX)
      ensures err == ENOLCK ==> locks == old(locks)
      ensures err == Ok ==> forall o, x :: TypeAt(locks, o, x) == Overlay(old(locks), req, o, x)
      ensures Accounted(locks, old(locks), req)
    {
      hide TypeAt, Overlay, Held, SameOverlay, Traced, Accounted, Canonical;
      ghost var orig := locks;
      TracedAtFirst(orig);
      TracedAll(orig, 0, req, orig, req);
      SameAtFirst(orig, req);
      var newl1, newl2 := false, false;
      if req.ltype != F_UNLCK || req.start != 0 || req.end != OFFSET_MAX {
        if !allocOk {
          return ENOLCK;
        }
        newl1, newl2 := true, true;
      }
      var lock, i := req, 0;
      while i < |locks|
        invariant Scan(locks, i, lock, orig, req)
        invariant Traced(locks, orig) && lock.pid == req.pid && req.end <= lock.end
        invariant newl1 || (lock.ltype == F_UNLCK && lock.start == 0)
        // the spare record is used at most once: after a split the next record is past the request
        invariant newl1 && !newl2 ==>
                    i < |locks| && locks[i].owner == lock.owner && locks[i].ltype != lock.ltype
                    && lock.end < locks[i].start
        decreases newl2, |locks| - i
      {
        var l := locks[i];
        var next := Skip;
        if l.owner == lock.owner {
          if lock.ltype == l.ltype {
            next, lock := MergeAt(i, lock, orig, req);
          } else {
            next := CutAt(i, lock, orig, req);
          }
        }
        match next {
          case Skip =>
            i := i + 1;
          case Again =>
          case Stop =>
            break;
          case Done =>
            TracedAll(locks, 0, req, orig, req);
            return Ok;
          case Split =>
            assert newl2;
            newl2 := false;
            i := i + 1;
        }
      }
      Splice(locks, i, lock, orig, req);
      TracedAll(locks, i, lock, orig, req);
      if lock.ltype != F_UNLCK {
        assert newl1;
        locks := locks[..i] + [lock] + locks[i..];
      }
      err := Ok;
    }

    // A record of the same owner and type: before the request, behind it, around it, or merged with it.
    method MergeAt(i: nat, lock0: Lock, ghost orig: seq<Lock>, ghost req: Lock) returns (next: Next, lock: Lock)
      requires Scan(locks, i, lock0, orig, req) && Traced(locks, orig) && i < |locks|
      requires locks[i].owner == lock0.owner && locks[i].ltype == lock0.ltype
      requires lock0.pid == req.pid && req.end <= lock0.end
      modifies this
      ensures Traced(locks, orig) && next != Split && lock == lock0.(start := lock.start, end := lock.end) &&
        req.end <= lock.end
      ensures next == Done ==> Canonical(locks) && forall o, x :: TypeAt(locks, o, x) == Overlay(orig, req, o, x)
      ensures next != Done ==> Scan(locks, if next == Skip then i + 1 else i, lock, orig, req)
      ensures next == Skip ==> locks == old(locks) && lock == lock0
      ensures next == Stop ==> i < |locks| && locks[i].owner == lock.owner && Before(lock, locks[i])
      ensures next == Again ==> |locks| == |old(locks)| - 1
      ensures lock.start <= lock0.start
    {
      hide TypeAt, Overlay, Held, SameOverlay, Traced, Canonical;
      var l := locks[i];
      lock := lock0;
      ScanRequests(locks, i, lock, orig, req);
      if l.end < lock.start - 1 {
        return Skip, lock;
      }
      if lock.end < l.start - 1 {
        return Stop, lock;
      }
      if l.start <= lock.start && lock.end <= l.end {
        Contained(locks, i, lock, orig, req);
        return Done, lock;
      }
      if l.start < lock.start { lock := lock.(start := l.start); }
      if lock.end < l.end { lock := lock.(end := l.end); }
      Absorb(locks, i, lock0, lock, orig, req);
      TracedCut(locks, i, [], orig);
      assert locks[..i] + [] + locks[i + 1..] == locks[..i] + locks[i + 1..];
      locks := locks[..i] + locks[i + 1..];
      next := Again;
    }

    // A record of the same owner and another type: before the request, behind it, deleted, cut at one end or split.
    method CutAt(i: nat, lock: Lock, ghost orig: seq<Lock>, ghost req: Lock) returns (next: Next)
      requires Scan(locks, i, lock, orig, req) && Traced(locks, orig) && i < |locks|
      requires locks[i].owner == lock.owner && locks[i].ltype != lock.ltype
      modifies this
      ensures Scan(locks, if next == Skip || next == Split then i + 1 else i, lock, orig, req) && Traced(locks, orig)
      ensures next != Done
      ensures next == Skip ==> |locks| == |old(locks)|
      ensures next == Again ==> |locks| == |old(locks)| - 1
      ensures next == Stop ==> i < |locks| && locks[i].owner == lock.owner && Before(lock, locks[i])
      ensures lock.end < old(locks)[i].start ==> next == Stop
      ensures next == Split <==> old(locks)[i].start < lock.start && lock.end < old(locks)[i].end
      ensures next == Split ==> i + 1 < |locks| && locks[i + 1].owner == lock.owner && locks[i + 1].ltype != lock.ltype
                                && lock.end < locks[i + 1].start
    {
      hide TypeAt, Overlay, Held, SameOverlay, Traced, Canonical;
      var l := locks[i];
      ScanRequests(locks, i, lock, orig, req);
      if l.end < lock.start {
        return Skip;
      }
      if lock.end < l.start {
        return Stop;
      }
      CutPieces(locks, i, lock, orig, req);
      TracedCut(locks, i, Pieces(l, lock), orig);
      if lock.start <= l.start && l.end <= lock.end {
        assert Pieces(l, lock) == [] && locks[..i] + [] + locks[i + 1..] == locks[..i] + locks[i + 1..];
        locks := locks[..i] + locks[i + 1..];
        return Again;
      }
      if l.end <= lock.end {
        assert Pieces(l, lock) == [l.(end := lock.start - 1)];
        locks := locks[..i] + [l.(end := lock.start - 1)] + locks[i + 1..];
        return Skip;
      }
      if lock.start <= l.start {
        assert Pieces(l, lock) == [l.(start := lock.end + 1)];
        locks := locks[..i] + [l.(start := lock.end + 1)] + locks[i + 1..];
        return Stop;
      }
      var lower, upper := l.(end := lock.start - 1), l.(start := lock.end + 1);
      assert Pieces(l, lock) == [lower, upper];
      locks := locks[..i] + [lower, upper] + locks[i + 1..];
      next := Split;
    }
  }

  // An instance: owner 1 and then owner 2 lock the first ten bytes for writing, and both have them.
  method TwoWriters() returns (list: LockList)
    ensures Canonical(list.locks) && !Exclusive(list.locks)
    ensures TypeAt(list.locks, 1, 0) == F_WRLCK && TypeAt(list.locks, 2, 0) == F_WRLCK
  {
    list := new LockList();
    var r1, r2 := Lock(F_WRLCK, 0, 9, 0, 1), Lock(F_WRLCK, 0, 9, 0, 2);
    var err := list.Insert(r1, true);
    ghost var before := list.locks;
    err := list.Insert(r2, true);
    assert TypeAt(list.locks, 2, 0) == Overlay(before, r2, 2, 0) == F_WRLCK;
    assert TypeAt(list.locks, 1, 0) == Overlay(before, r2, 1, 0) == TypeAt(before, 1, 0) == F_WRLCK;
  }

  // A run of requests, each with the outcome of its allocations.
  datatype Event = Event(req: Lock, allocOk: bool)

  predicate Granted(e: Event) {
    e.allocOk || (e.req.ltype == F_UNLCK && e.req.start == 0 && e.req.end == OFFSET_MAX)
  }

  // The type of the last granted request of `o` covering `x`, among the first `n`.
  function LastGranted(run: seq<Event>, n: nat, o: nat, x: Offset): LockType
    requires n <= |run|
  {
    if n == 0 then F_UNLCK
    else if Granted(run[n - 1]) && Covers(run[n - 1].req, o, x) then run[n - 1].req.ltype
    else LastGranted(run, n - 1, o, x)
  }

  ghost predicate Requests(run: seq<Event>) {
    forall k :: 0 <= k < |run| ==> Request(run[k].req)
  }

  // The list says what the first `n` requests of the run have left.
  ghost predicate Tells(locks: seq<Lock>, run: seq<Event>, n: nat)
    requires n <= |run|
  {
    forall o, x :: TypeAt(locks, o, x) == LastGranted(run, n, o, x)
  }

  // Over every run from an empty list, the list says for each owner and offset what the last granted
  // request covering it said.
  method Replay(run: seq<Event>) returns (locks: seq<Lock>)
    requires Requests(run)
    ensures Canonical(locks) && Tells(locks, run, |run|)
  {
    var list := new LockList();
    for i := 0 to |run|
      invariant Canonical(list.locks) && Tells(list.locks, run, i)
    {
      ghost var before := list.locks;
      var err := list.Insert(run[i].req, run[i].allocOk);
      forall o, x
        ensures TypeAt(list.locks, o, x) == LastGranted(run, i + 1, o, x)
      {
        assert TypeAt(before, o, x) == LastGranted(run, i, o, x);
      }
    }
    locks := list.locks;
  }
}
