/** `caching_read`: reads of a file through the FBR cache, block by block. */
module CachingRead {
  import opened Common
  import opened FbrCache

  // A file on the disk, with the block size `fstat` reports for it.
  datatype File = File(data: seq<Byte>, blksize: nat)

  type Disk = map<int, File>

  // What a read ends in: a byte count, a failed pread, or a copy past the end of a block buffer.
  datatype Outcome = Count(n: nat) | Failed | OutOfBounds

  ghost predicate DiskOk(disk: Disk) {
    forall i :: i in disk ==> disk[i].blksize > 0
  }

  // Where a block starts in its file (`block_begin`).
  function Begin(block: nat, bs: nat): nat {
    block * bs
  }

  // The block an offset is in, and the offset inside it.
  function FirstBlock(offset: nat, bs: nat): nat
    requires bs > 0
  {
    offset / bs
  }

  function Skip(offset: nat, bs: nat): nat
    requires bs > 0
  {
    offset % bs
  }

  // A cached block holds the bytes of its file; past the end of the file it may hold anything.
  ghost predicate Faithful(f: File, block: nat, buff: seq<Byte>) {
    |buff| == f.blksize
    && forall j :: 0 <= j < |buff| && Begin(block, f.blksize) + j < |f.data| ==>
      buff[j] == f.data[Begin(block, f.blksize) + j]
  }

  ghost predicate Coherent(disk: Disk, s: seq<Entry>) {
    forall i :: 0 <= i < |s| && Real(s[i]) ==>
      s[i].id.fileId in disk && s[i].id.blockNumber >= 0
      && Faithful(disk[s[i].id.fileId], s[i].id.blockNumber, s[i].buff)
  }

  lemma BlockSize(disk: Disk, ino: int)
    requires DiskOk(disk) && ino in disk
    ensures disk[ino].blksize > 0
  {
  }

  lemma HitCoherent(disk: Disk, s: seq<Entry>, newSize: nat, p: nat)
    requires Coherent(disk, s) && p < |s|
    ensures Coherent(disk, Hit(s, newSize, p))
  {
    hide Faithful;
    var r := Hit(s, newSize, p);
    assert forall i :: 0 < i < |r| ==> r[i] == s[if i <= p then i - 1 else i];
    assert Real(r[0]) ==> Real(s[p]);
  }

  lemma AdmitCoherent(disk: Disk, s: seq<Entry>, oldStart: nat, id: BlockID, buff: seq<Byte>)
    requires Coherent(disk, s) && oldStart < |s| && id.fileId in disk && id.blockNumber >= 0
    requires Faithful(disk[id.fileId], id.blockNumber, buff)
    ensures Coherent(disk, Admit(s, oldStart, id, buff))
  {
    hide Faithful, LastMin;
    var v := if Real(s[|s| - 1]) then LastMin(s, oldStart) else |s| - 1;
    var r := Admit(s, oldStart, id, buff);
    assert forall i :: 0 < i < |r| ==> r[i] == s[if i <= v then i - 1 else i];
  }

  // The bytes a file has in a block.
  function PreadCount(f: File, block: nat): nat
    requires Begin(block, f.blksize) < |f.data|
  {
    if Begin(block, f.blksize) + f.blksize <= |f.data| then f.blksize else |f.data| - Begin(block, f.blksize)
  }

  // ------------------------------------------------------------------ one block

  function Sections(cm: CacheManager): Shape {
    Shape(cm.size, cm.newSize, cm.oldStart)
  }

  // One turn of the loop of `caching_read` up to the copy: the block from the cache, or from the disk into
  // the cache.  `pread` returns the bytes the file has there, the rest of the buffer is left as allocated; `fails` says
  // for which blocks of the file it returns an error instead.
  method FetchBlock(cm: CacheManager, disk: Disk, ino: int, block: nat, fails: nat -> bool)
    returns (ok: bool, buff: seq<Byte>, hit: bool, preadRet: nat)
    requires cm.Valid() && DiskOk(disk) && Coherent(disk, cm.View()) && ino in disk
    requires Begin(block, disk[ino].blksize) < |disk[ino].data|
    modifies cm
    ensures cm.Valid() && Coherent(disk, cm.View())
    ensures hit <==> Find(old(cm.View()), BlockID(ino, block)).Some?
    ensures ok <==> hit || !fails(block)
    ensures !ok ==> cm.View() == old(cm.View())
    ensures ok ==> Faithful(disk[ino], block, buff) && |buff| == disk[ino].blksize
    ensures ok ==>
      cm.View() == Step(old(cm.View()), Sections(cm), Access(BlockID(ino, block), buff))
    ensures ok && !hit ==> preadRet == PreadCount(disk[ino], block)
  {
    hide Coherent, Find, Hit, Admit;
    var f, id := disk[ino], BlockID(ino, block);
    ghost var s := cm.View();
    var cached := cm.RetrieveBuffer(id);
    hit, preadRet := cached.Some?, 0;
    if hit {
      buff := cached.value;
      CoherentAt(disk, s, id);
      HitCoherent(disk, s, cm.newSize, Find(s, id).value);
      return true, buff, hit, preadRet;
    }
    if fails(block) {
      return false, [], hit, preadRet;
    }
    var begin := Begin(block, f.blksize);
    preadRet := if begin + f.blksize <= |f.data| then f.blksize else |f.data| - begin;
    var rest: seq<Byte> := Allocate(f.blksize - preadRet);
    buff := f.data[begin..begin + preadRet] + rest;
    var exits := cm.InsertBlock(id, buff);
    assert !exits;
    AdmitCoherent(disk, s, cm.oldStart, id, buff);
    ok := true;
  }

  // Memory as the allocator returns it.
  method Allocate(n: nat) returns (m: seq<Byte>)
    ensures |m| == n
  {
    m := [];
    while |m| < n
      invariant |m| <= n
    {
      var b: Byte := *;
      m := m + [b];
    }
  }

  lemma {:induction false} CoherentAt(disk: Disk, s: seq<Entry>, id: BlockID)
    requires Coherent(disk, s) && Find(s, id).Some? && id.blockNumber >= 0
    ensures id.fileId in disk && Faithful(disk[id.fileId], id.blockNumber, s[Find(s, id).value].buff)
  {
    var p := Find(s, id).value;
    assert Real(s[p]);
  }

  // ------------------------------------------------------------------ a whole read

  // The bytes a request can get.
  function Wanted(f: File, size: nat, offset: nat): nat {
    if |f.data| <= offset then 0 else if |f.data| < size + offset then |f.data| - offset else size
  }

  // The number of blocks the loop visits: it ignores the offset inside the first block.
  function Blocks(want: nat, bs: nat): nat
    requires bs > 0
  {
    (want + bs - 1) / bs
  }

  // The reads that the loop serves correctly: aligned ones, those within one block, and those whose first
  // block is cached and whose last block is among the visited ones.
  predicate Served(f: File, size: nat, offset: nat, firstCached: bool)
    requires f.blksize > 0
  {
    ServedBy(f.blksize, Wanted(f, size, offset), offset, firstCached)
  }

  predicate ServedBy(bs: nat, want: nat, offset: nat, firstCached: bool)
    requires bs > 0
  {
    || Skip(offset, bs) == 0
    || Skip(offset, bs) + want <= bs
    || (firstCached && Skip(offset, bs) + want <= Blocks(want, bs) * bs)
  }

  lemma MulMono(a: nat, b: nat, c: nat)
    requires a <= b
    ensures a * c <= b * c
  {
  }

  lemma BlocksDef(want: nat, bs: nat)
    requires bs > 0
    ensures want <= Blocks(want, bs) * bs < want + bs
    ensures want > 0 <==> Blocks(want, bs) > 0
    ensures want > bs <==> Blocks(want, bs) > 1
  {
    var n, m := Blocks(want, bs), want + bs - 1;
    assert m == n * bs + m % bs;
    if n > 1 { MulMono(2, n, bs); }
  }

  // The arithmetic of the loop: `k` of the `n` blocks have been visited and `prog` bytes copied.
  ghost predicate Going(offset: nat, want: nat, bs: nat, firstCached: bool, k: nat, prog: nat) {
    && bs > 0 && k <= Blocks(want, bs) && prog <= want
    && prog == (if k == 0 then 0 else if k == Blocks(want, bs) then want else k * bs - Skip(offset, bs))
    && (k > 0 && Skip(offset, bs) > 0 ==> Blocks(want, bs) == 1 || firstCached)
    && (k > 0 && k == Blocks(want, bs) && Skip(offset, bs) > 0 ==> Skip(offset, bs) + want <= k * bs)
  }

  // What the next turn copies: `len` bytes at `from` in block `offset / bs + k`.
  function CopyLength(offset: nat, want: nat, bs: nat, k: nat, prog: nat, hit: bool, preadRet: nat): nat
    requires bs > 0 && prog <= want
  {
    if k == Blocks(want, bs) - 1 then want - prog
    else if k == 0 then (if hit then bs - Skip(offset, bs) else preadRet)
    else bs
  }

  lemma TurnPosition(offset: nat, want: nat, bs: nat, firstCached: bool, k: nat, prog: nat)
    requires Going(offset, want, bs, firstCached, k, prog) && k < Blocks(want, bs)
    ensures Begin(FirstBlock(offset, bs) + k, bs) + (if k == 0 then Skip(offset, bs) else 0) == offset + prog
    ensures prog < want
  {
    BlocksDef(want, bs);
    var n := Blocks(want, bs);
    assert offset == (offset / bs) * bs + Skip(offset, bs);
    assert (offset / bs + k) * bs == (offset / bs) * bs + k * bs;
    MulMono(k + 1, n, bs);
    assert (k + 1) * bs == k * bs + bs;
  }

  lemma TurnStep(offset: nat, want: nat, bs: nat, firstCached: bool, k: nat, prog: nat, hit: bool, preadRet: nat)
    requires Going(offset, want, bs, firstCached, k, prog) && k < Blocks(want, bs)
    requires k == 0 ==> hit == firstCached
    requires !hit && Begin(FirstBlock(offset, bs) + k, bs) + bs <= offset + want ==> preadRet == bs
    ensures var from := if k == 0 then Skip(offset, bs) else 0;
            var len := CopyLength(offset, want, bs, k, prog, hit, preadRet);
            if from + len > bs
            then !ServedBy(bs, want, offset, firstCached)
            else Going(offset, want, bs, firstCached, k + 1, prog + len)
  {
    hide Begin, FirstBlock, Skip, Blocks;
    BlocksDef(want, bs);
    OffsetSplit(offset, bs);
    var n := Blocks(want, bs);
    assert (k + 1) * bs == k * bs + bs;
    if k + 1 < n {
      MulMono(k + 2, n, bs);
      assert (k + 2) * bs == (k + 1) * bs + bs;
    } else if k == 0 {
      assert n * bs == bs;
    }
  }

  lemma OffsetSplit(offset: nat, bs: nat)
    requires bs > 0
    ensures Begin(FirstBlock(offset, bs), bs) + Skip(offset, bs) == offset && Skip(offset, bs) < bs
  {
  }

  // A copy out of a faithful block buffer.
  lemma CopyFaithful(f: File, block: nat, buff: seq<Byte>, from: nat, len: nat)
    requires Faithful(f, block, buff) && from + len <= |buff| && Begin(block, f.blksize) + from + len <= |f.data|
    ensures buff[from..from + len] == f.data[Begin(block, f.blksize) + from..Begin(block, f.blksize) + from + len]
  {
    var a, b := buff[from..from + len], f.data[Begin(block, f.blksize) + from..Begin(block, f.blksize) + from + len];
    forall j | 0 <= j < len
      ensures a[j] == b[j]
    {
      assert buff[from + j] == f.data[Begin(block, f.blksize) + (from + j)];
    }
  }

  // memcpy into the caller's buffer
  method CopyOut(buf: array<Byte>, at: nat, bytes: seq<Byte>)
    requires at + |bytes| <= buf.Length
    modifies buf
    ensures buf[..][..at + |bytes|] == old(buf[..])[..at] + bytes
    ensures buf[..][at + |bytes|..] == old(buf[..])[at + |bytes|..]
  {
    for i := 0 to |bytes|
      invariant buf[..at] == old(buf[..at])
      invariant forall j :: 0 <= j < i ==> buf[at + j] == bytes[j]
      invariant forall j :: at + i <= j < buf.Length ==> buf[j] == old(buf[j])
    {
      buf[at + i] := bytes[i];
    }
  }

  // Whether the first block of a read is cached.
  predicate FirstCached(s: seq<Entry>, ino: int, offset: nat, bs: nat)
    requires bs > 0
  {
    Find(s, BlockID(ino, FirstBlock(offset, bs))).Some?
  }

  // The buffer after `prog` bytes: the file's, and behind them what was there.
  ghost predicate Copied(buf: seq<Byte>, before: seq<Byte>, f: File, offset: nat, prog: nat) {
    && |buf| == |before| && prog <= |buf| && offset + prog <= |f.data|
    && buf[..prog] == f.data[offset..offset + prog] && buf[prog..] == before[prog..]
  }

  lemma CopiedMore(buf: seq<Byte>, mid: seq<Byte>, before: seq<Byte>, f: File, offset: nat, prog: nat, len: nat)
    requires Copied(mid, before, f, offset, prog) && |buf| == |mid| && prog + len <= |buf| &&
      offset + prog + len <= |f.data|
    requires buf[..prog + len] == mid[..prog] + f.data[offset + prog..offset + prog + len]
    requires buf[prog + len..] == mid[prog + len..]
    ensures Copied(buf, before, f, offset, prog + len)
  {
    SliceJoin(f.data, offset, prog, len);
    assert mid[prog..][len..] == mid[prog + len..] && before[prog..][len..] == before[prog + len..];
  }

  // The cache after an access to each of the blocks from `first` on, whose contents are `buffs`.
  function Visited(s: seq<Entry>, c: Shape, ino: int, first: nat, buffs: seq<seq<Byte>>): (r: seq<Entry>)
    requires ShapeOk(c) && |s| == c.size
    ensures |r| == c.size
    decreases |buffs|
  {
    if buffs == [] then s
    else
      var k := |buffs| - 1;
      Step(Visited(s, c, ino, first, buffs[..k]), c, Access(BlockID(ino, first + k), buffs[k]))
  }

  function Accesses(ino: int, first: nat, buffs: seq<seq<Byte>>): (h: seq<Access>)
    ensures |h| == |buffs|
  {
    seq(|buffs|, k requires 0 <= k < |buffs| => Access(BlockID(ino, first + k), buffs[k]))
  }

  // A read continues the history of the cache.
  lemma {:induction false} VisitedRun(c: Shape, h: seq<Access>, ino: int, first: nat, buffs: seq<seq<Byte>>)
    requires ShapeOk(c)
    ensures Visited(Run(c, h), c, ino, first, buffs) == Run(c, h + Accesses(ino, first, buffs))
    decreases |buffs|
  {
    hide Step;
    var g := Accesses(ino, first, buffs);
    if buffs == [] {
      assert h + g == h;
    } else {
      var k := |buffs| - 1;
      VisitedRun(c, h, ino, first, buffs[..k]);
      assert (h + g)[..|h + g| - 1] == h + Accesses(ino, first, buffs[..k]);
      assert (h + g)[|h + g| - 1] == g[k];
    }
  }

  // So what holds over every run of the cache holds after every read: ids are unique, null blocks form a suffix, and
  // a count is one plus the hits outside the new section.
  lemma ReadSound(c: Shape, h: seq<Access>, ino: int, first: nat, buffs: seq<seq<Byte>>)
    requires ShapeOk(c) && RealAccesses(h)
    ensures var g := h + Accesses(ino, first, buffs);
            var s := Visited(Run(c, h), c, ino, first, buffs);
            s == Run(c, g) && WellFormed(s) && Counted(c, g, s)
  {
    hide Run, WellFormed, Counted;
    VisitedRun(c, h, ino, first, buffs);
    RunSound(c, h + Accesses(ino, first, buffs));
  }

  // One turn of the loop: the number of bytes copied, or how the read ends.
  method ReadBlock(cm: CacheManager, disk: Disk, ino: int, buf: array<Byte>, offset: nat, want: nat, k: nat, prog: nat,
                   fails: nat -> bool, ghost firstCached: bool, ghost before: seq<Byte>)
    returns (r: Outcome, ghost buff: seq<Byte>)
    requires cm.Valid() && DiskOk(disk) && Coherent(disk, cm.View()) && ino in disk && disk[ino].blksize > 0
    requires Going(offset, want, disk[ino].blksize, firstCached, k, prog) && k < Blocks(want, disk[ino].blksize)
    requires k == 0 ==> firstCached == FirstCached(cm.View(), ino, offset, disk[ino].blksize)
    requires Copied(buf[..], before, disk[ino], offset, prog) && want <= buf.Length && offset + want <= |disk[ino].data|
    modifies cm, buf
    ensures cm.Valid() && Coherent(disk, cm.View())
    ensures cm.View() == if r.Failed? then old(cm.View())
                         else Step(old(cm.View()), Sections(cm),
                                   Access(BlockID(ino, FirstBlock(offset, disk[ino].blksize) + k), buff))
    ensures r.Failed? ==> fails(FirstBlock(offset, disk[ino].blksize) + k) && (k == 0 ==> !firstCached)
    ensures !r.Failed? && k == 0 && !firstCached ==> !fails(FirstBlock(offset, disk[ino].blksize))
    ensures r.OutOfBounds? ==> !ServedBy(disk[ino].blksize, want, offset, firstCached)
    ensures r.Count? ==> Going(offset, want, disk[ino].blksize, firstCached, k + 1, prog + r.n)
    ensures if r.Count? then Copied(buf[..], before, disk[ino], offset, prog + r.n) else buf[..] == old(buf[..])
  {
    hide Coherent, Find, Going, Faithful, Blocks, Begin, Skip, FirstBlock, DiskOk, Step, ServedBy, Copied,
         Addressed, WellFormed, Tagged, Mapped, Entries;
    var f, bs := disk[ino], disk[ino].blksize;
    TurnPosition(offset, want, bs, firstCached, k, prog);
    GoingBounds(offset, want, bs, firstCached, k, prog);
    var ok, block, hit, preadRet := FetchBlock(cm, disk, ino, FirstBlock(offset, bs) + k, fails);
    buff := block;
    if !ok {
      return Failed, buff;
    }
    var from, len := 0, bs;
    if k == 0 {
      from := Skip(offset, bs);
      len := if hit then bs - from else preadRet;
    }
    if k == Blocks(want, bs) - 1 {
      len := want - prog;
    }
    assert len == CopyLength(offset, want, bs, k, prog, hit, preadRet);
    TurnStep(offset, want, bs, firstCached, k, prog, hit, preadRet);
    if from + len > bs {
      return OutOfBounds, buff;
    }
    GoingBounds(offset, want, bs, firstCached, k + 1, prog + len);
    CopyBlock(buf, f, FirstBlock(offset, bs) + k, block, from, len, offset, prog, before);
    r := Count(len);
  }

  // The copy out of a block, which continues where the last one ended.
  method CopyBlock(buf: array<Byte>, ghost f: File, ghost block: nat, buff: seq<Byte>, from: nat, len: nat,
                   ghost offset: nat, prog: nat, ghost before: seq<Byte>)
    requires Faithful(f, block, buff) && from + len <= |buff| && Begin(block, f.blksize) + from == offset + prog
    requires Copied(buf[..], before, f, offset, prog) && prog + len <= buf.Length && offset + prog + len <= |f.data|
    modifies buf
    ensures Copied(buf[..], before, f, offset, prog + len)
  {
    hide Faithful, Begin;
    ghost var mid := buf[..];
    CopyFaithful(f, block, buff, from, len);
    CopyOut(buf, prog, buff[from..from + len]);
    CopiedMore(buf[..], mid, before, f, offset, prog, len);
  }

  // `caching_read`: in every coherent state of the cache, a read for which no `pread` fails returns exactly the bytes
  // the file has there if it is one of the served ones, and otherwise copies past a block buffer.
  // `buffs` are the blocks it has visited.
  method Read(cm: CacheManager, disk: Disk, ino: int, buf: array<Byte>, size: nat, offset: int, fails: nat -> bool)
    returns (r: Outcome, ghost buffs: seq<seq<Byte>>)
    requires cm.Valid() && DiskOk(disk) && Coherent(disk, cm.View()) && ino in disk && size <= buf.Length
    modifies cm, buf
    ensures cm.Valid() && Coherent(disk, cm.View())
    ensures offset < 0 ==> r == Count(0) && buf[..] == old(buf[..]) && cm.View() == old(cm.View())
    ensures offset >= 0 ==>
      var f, want := disk[ino], Wanted(disk[ino], size, offset);
      var first, cached := FirstBlock(offset, f.blksize), FirstCached(old(cm.View()), ino, offset, f.blksize);
      && ShapeOk(Sections(cm)) && |old(cm.View())| == cm.size
      && cm.View() == Visited(old(cm.View()), Sections(cm), ino, first, buffs)
      && |buffs| <= Blocks(want, f.blksize) && (r.Count? ==> |buffs| == Blocks(want, f.blksize))
      && (r.Failed? ==>
            exists b :: first <= b < first + Blocks(want, f.blksize) && fails(b) && (b == first ==> !cached))
      && (want > 0 && !cached && fails(first) ==> r.Failed?)
      && (!r.Failed? ==> (r.Count? <==> want == 0 || Served(f, size, offset, cached)))
      && (r.Count? ==>
            && r.n == want && buf[want..] == old(buf[want..])
            && (want > 0 ==> buf[..want] == f.data[offset..offset + want]))
  {
    hide Coherent, Find, Going, Blocks, Begin, Skip, FirstBlock, DiskOk, Step, ServedBy, Visited,
         Addressed, WellFormed, Tagged, Mapped, Entries;
    var f := disk[ino];
    var bs := f.blksize;
    assert bs > 0 by { BlockSize(disk, ino); }
    NoBlocks(bs);
    buffs := [];
    assert ShapeOk(Sections(cm));
    ghost var view := cm.View();
    if offset >= 0 {
      VisitedNone(view, Sections(cm), ino, FirstBlock(offset, bs));
    }
    if offset < 0 || |f.data| <= offset {
      return Count(0), buffs;
    }
    var want := if |f.data| < size + offset then |f.data| - offset else size;
    var n := Blocks(want, bs);
    ghost var before, firstCached := buf[..], FirstCached(cm.View(), ino, offset, bs);
    var prog: nat, k: nat := 0, 0;
    GoingStart(offset, want, bs, firstCached);
    while k < n
      invariant k <= n && prog <= want
      invariant cm.Valid() && Coherent(disk, cm.View())
      invariant k == 0 ==> firstCached == FirstCached(cm.View(), ino, offset, bs)
      invariant k > 0 && !firstCached ==> !fails(FirstBlock(offset, bs))
      invariant Going(offset, want, bs, firstCached, k, prog)
      invariant Copied(buf[..], before, f, offset, prog)
      invariant |buffs| == k && cm.View() == Visited(view, Sections(cm), ino, FirstBlock(offset, bs), buffs)
      decreases n - k
    {
      ghost var buff;
      r, buff := ReadBlock(cm, disk, ino, buf, offset, want, k, prog, fails, firstCached, before);
      if r.Failed? {
        return;
      }
      VisitedMore(view, Sections(cm), ino, FirstBlock(offset, bs), buffs, buff);
      buffs := buffs + [buff];
      if !r.Count? {
        return;
      }
      GoingBounds(offset, want, bs, firstCached, k + 1, prog + r.n);
      prog, k := prog + r.n, k + 1;
    }
    ReadEnds(offset, want, bs, firstCached, prog);
    r := Count(prog);
  }

  lemma VisitedNone(s: seq<Entry>, c: Shape, ino: int, first: nat)
    requires ShapeOk(c) && |s| == c.size
    ensures Visited(s, c, ino, first, []) == s
  {
  }

  lemma VisitedMore(s: seq<Entry>, c: Shape, ino: int, first: nat, buffs: seq<seq<Byte>>, buff: seq<Byte>)
    requires ShapeOk(c) && |s| == c.size
    ensures Visited(s, c, ino, first, buffs + [buff])
         == Step(Visited(s, c, ino, first, buffs), c, Access(BlockID(ino, first + |buffs|), buff))
  {
    hide Step;
    assert (buffs + [buff])[..|buffs|] == buffs;
  }

  lemma NoBlocks(bs: nat)
    requires bs > 0
    ensures Blocks(0, bs) == 0
  {
    BlocksDef(0, bs);
  }

  lemma SliceJoin<T>(s: seq<T>, at: nat, a: nat, b: nat)
    requires at + a + b <= |s|
    ensures s[at..at + a] + s[at + a..at + a + b] == s[at..at + a + b]
  {
  }

  lemma GoingStart(offset: nat, want: nat, bs: nat, firstCached: bool)
    requires bs > 0
    ensures Going(offset, want, bs, firstCached, 0, 0)
  {
    BlocksDef(want, bs);
  }

  lemma GoingBounds(offset: nat, want: nat, bs: nat, firstCached: bool, k: nat, prog: nat)
    requires Going(offset, want, bs, firstCached, k, prog)
    ensures k <= Blocks(want, bs) && prog <= want
  {
  }

  lemma ReadEnds(offset: nat, want: nat, bs: nat, firstCached: bool, prog: nat)
    requires bs > 0 && Going(offset, want, bs, firstCached, Blocks(want, bs), prog)
    ensures prog == want
    ensures want == 0 || ServedBy(bs, want, offset, firstCached)
    ensures want > 0 ==> Blocks(want, bs) > 0
  {
    BlocksDef(want, bs);
    if Blocks(want, bs) == 1 { assert 1 * bs == bs; }
  }

  // A read of four bytes that crosses into the second block is not served whether or not the first block is
  // cached; a longer one is served only if it is.
  lemma CrossingNotServed(firstCached: bool)
    ensures var f := File(seq(12, _ => 0), 4);
            !Served(f, 4, 1, firstCached) && (Served(f, 7, 1, firstCached) <==> firstCached)
  {
    assert Blocks(4, 4) == 1 && Blocks(7, 4) == 2 && Skip(1, 4) == 1;
  }
}
