/** Scatter/gather copies between vectors of memory buffers (`fuse_buf_copy`).  Memory is one array of bytes;
    a buffer is an address and a size in it. */
module BufVec {
  import opened Common

  datatype Buf = Buf(mem: nat, size: nat)

  // The addresses of `n` bytes from `a`.
  function Range(a: nat, n: nat): (r: seq<nat>)
    ensures |r| == n && forall i :: 0 <= i < n ==> r[i] == a + i
  {
    seq(n, i requires 0 <= i < n => a + i)
  }

  // The addresses of a vector of buffers, one after the other.
  function Cells(bufs: seq<Buf>): seq<nat> {
    if bufs == [] then [] else Range(bufs[0].mem, bufs[0].size) + Cells(bufs[1..])
  }

  // The addresses from position `off` of buffer `idx` on.
  function Rest(bufs: seq<Buf>, idx: nat, off: nat): seq<nat> {
    if idx < |bufs| && off <= bufs[idx].size
    then Range(bufs[idx].mem + off, bufs[idx].size - off) + Cells(bufs[idx + 1..])
    else []
  }

  lemma RestAtStart(bufs: seq<Buf>, idx: nat)
    requires idx <= |bufs|
    ensures Rest(bufs, idx, 0) == Cells(bufs[idx..])
  {
    if idx < |bufs| {
      assert bufs[idx..][1..] == bufs[idx + 1..];
    }
  }

  lemma RestWithin(bufs: seq<Buf>, idx: nat, off: nat, len: nat)
    requires idx < |bufs| && off + len <= bufs[idx].size
    ensures len <= |Rest(bufs, idx, off)|
    ensures Rest(bufs, idx, off)[..len] == Range(bufs[idx].mem + off, len)
    ensures Rest(bufs, idx, off)[len..] == if off + len == bufs[idx].size then Cells(bufs[idx + 1..])
      else Rest(bufs, idx, off + len)
  {
    hide Cells;
    var a, b := Range(bufs[idx].mem + off, bufs[idx].size - off), Cells(bufs[idx + 1..]);
    assert (a + b)[len..] == a[len..] + b;
    assert a[len..] == Range(bufs[idx].mem + off + len, bufs[idx].size - off - len);
    assert off + len == bufs[idx].size ==> a[len..] + b == b;
  }

  class Vector {
    const bufs: seq<Buf>
    var idx: nat
    var off: nat

    ghost predicate Valid()
      reads this
    {
      idx <= |bufs| && (idx < |bufs| ==> off <= bufs[idx].size)
    }

    // What the cursor has still to pass.
    ghost function Left(): seq<nat>
      reads this
    {
      Rest(bufs, idx, off)
    }

    constructor (bufs: seq<Buf>)
      ensures this.bufs == bufs && Valid() && Left() == Cells(bufs)
    {
      this.bufs := bufs;
      idx, off := 0, 0;
      new;
      RestAtStart(bufs, 0);
      assert bufs[0..] == bufs;
    }

    // `fuse_bufvec_advance`
    method Advance(len: nat) returns (more: bool)
      requires Valid() && idx < |bufs| && off + len <= bufs[idx].size
      modifies this
      ensures Valid() && len <= |old(Left())| && Left() == old(Left())[len..]
      ensures more <==> idx < |bufs|
      ensures old(off) + len == bufs[old(idx)].size ==> idx == old(idx) + 1
      ensures old(off) + len < bufs[old(idx)].size ==> idx == old(idx)
    {
      RestWithin(bufs, idx, off, len);
      off := off + len;
      assert off <= bufs[idx].size;
      if off == bufs[idx].size {
        assert idx < |bufs|;
        idx := idx + 1;
        RestAtStart(bufs, idx);
        if idx == |bufs| {
          return false;
        }
        off := 0;
      }
      more := true;
    }
  }

  // `len` bytes have been copied from `s` to `d`, and nothing else has changed.
  ghost predicate Chunk(mid: seq<Byte>, after: seq<Byte>, d: nat, s: nat, len: nat) {
    && |mid| == |after| && (len > 0 ==> d + len <= |mid| && s + len <= |mid|)
    && (forall a :: d <= a < d + len ==> after[a] == mid[a - d + s])
    && (forall a :: 0 <= a < |mid| && !(d <= a < d + len) ==> after[a] == mid[a])
  }

  // The memory case of `fuse_buf_copy_one`: memcpy, or memmove where the ranges overlap.
  method CopyOne(mem: array<Byte>, dst: nat, src: nat, len: nat)
    requires len > 0 ==> dst + len <= mem.Length && src + len <= mem.Length
    modifies mem
    ensures Chunk(old(mem[..]), mem[..], dst, src, len)
  {
    if len == 0 {
      return;
    }
    var bytes := mem[src..src + len];
    for i := 0 to len
      invariant forall j {:trigger bytes[j]} :: 0 <= j < i ==> mem[dst + j] == bytes[j]
      invariant forall a :: 0 <= a < mem.Length && !(dst <= a < dst + i) ==> mem[a] == old(mem[a])
    {
      mem[dst + i] := bytes[i];
    }
    forall a | dst <= a < dst + len
      ensures mem[..][a] == old(mem[..])[a - dst + src]
    {
      assert bytes[a - dst] == old(mem[a - dst + src]);
    }
  }

  function Min(a: nat, b: nat): nat {
    if a < b then a else b
  }

  // Every address is in memory, no destination address occurs twice or is a source address.
  ghost predicate Separate(length: nat, src: seq<nat>, dst: seq<nat>) {
    && (forall i :: 0 <= i < |src| ==> src[i] < length)
    && (forall i :: 0 <= i < |dst| ==> dst[i] < length)
    && (forall i, j :: 0 <= i < j < |dst| ==> dst[i] != dst[j])
    && (forall i, j :: 0 <= i < |src| && 0 <= j < |dst| ==> src[i] != dst[j])
  }

  // The first `n` destination bytes are the source's; nothing else has changed.
  ghost predicate Copied(before: seq<Byte>, after: seq<Byte>, src: seq<nat>, dst: seq<nat>, n: nat)
    requires |before| == |after| && n <= |src| && n <= |dst| && Separate(|before|, src, dst)
  {
    && (forall i :: 0 <= i < n ==> after[dst[i]] == before[src[i]])
    && (forall a :: 0 <= a < |before| && a !in dst[..n] ==> after[a] == before[a])
  }

  // Cells `n` to `n + len` of the destination are the addresses from `d` on.
  ghost predicate Run(cells: seq<nat>, n: nat, len: nat, d: nat)
    requires n + len <= |cells|
  {
    forall j :: n <= j < n + len ==> cells[j] == d + (j - n)
  }

  lemma RunIsRange(cells: seq<nat>, n: nat, len: nat, d: nat)
    requires n + len <= |cells| && cells[n..n + len] == Range(d, len)
    ensures Run(cells, n, len, d)
  {
    forall j | n <= j < n + len
      ensures cells[j] == d + (j - n)
    {
      assert cells[n..n + len][j - n] == Range(d, len)[j - n];
    }
  }

  lemma RunCovers(cells: seq<nat>, n: nat, len: nat, d: nat, a: nat)
    requires n + len <= |cells| && Run(cells, n, len, d)
    ensures d <= a < d + len ==> exists j :: n <= j < n + len && cells[j] == a
  {
    if d <= a < d + len {
      assert cells[n + (a - d)] == a;
    }
  }

  // One chunk more: what the first `n + len` destination cells hold.
  lemma CopiedMoreAt(before: seq<Byte>, mid: seq<Byte>, after: seq<Byte>, src: seq<nat>, dst: seq<nat>, n: nat,
      len: nat, s: nat, d: nat, i: nat)
    requires |before| == |mid| == |after| && n + len <= |src| && n + len <= |dst| && Separate(|before|, src, dst)
    requires Copied(before, mid, src, dst, n) && Chunk(mid, after, d, s, len)
    requires Run(src, n, len, s) && Run(dst, n, len, d) && i < n + len
    ensures after[dst[i]] == before[src[i]]
  {
    if i < n {
      RunCovers(dst, n, len, d, dst[i]);
    } else {
      assert src[i] !in dst[..n];
      assert after[dst[i]] == mid[src[i]];
    }
  }

  // One chunk more: what the other cells hold.
  lemma CopiedMoreElsewhere(before: seq<Byte>, mid: seq<Byte>, after: seq<Byte>, src: seq<nat>, dst: seq<nat>,
      n: nat, len: nat, s: nat, d: nat, a: nat)
    requires |before| == |mid| == |after| && n + len <= |src| && n + len <= |dst| && Separate(|before|, src, dst)
    requires Copied(before, mid, src, dst, n) && Chunk(mid, after, d, s, len) && Run(dst, n, len, d)
    requires a < |before| && a !in dst[..n + len]
    ensures after[a] == before[a]
  {
    hide Separate;
    RunCovers(dst, n, len, d, a);
    assert forall j :: 0 <= j < n + len ==> dst[j] == dst[..n + len][j];
    assert a !in dst[..n];
  }

  // One chunk more.
  lemma CopiedMore(before: seq<Byte>, mid: seq<Byte>, after: seq<Byte>, src: seq<nat>, dst: seq<nat>, n: nat,
      len: nat, s: nat, d: nat)
    requires |before| == |mid| == |after| && n + len <= |src| && n + len <= |dst| && Separate(|before|, src, dst)
    requires Copied(before, mid, src, dst, n) && Chunk(mid, after, d, s, len)
    requires Run(src, n, len, s) && Run(dst, n, len, d)
    ensures Copied(before, after, src, dst, n + len)
  {
    hide Chunk, Run;
    forall i | 0 <= i < n + len
      ensures after[dst[i]] == before[src[i]]
    {
      hide Copied;
      CopiedMoreAt(before, mid, after, src, dst, n, len, s, d, i);
    }
    forall a | 0 <= a < |before| && a !in dst[..n + len]
      ensures after[a] == before[a]
    {
      hide Copied;
      CopiedMoreElsewhere(before, mid, after, src, dst, n, len, s, d, a);
    }
  }

  // `fuse_buf_size`
  method BufSize(bufs: seq<Buf>) returns (size: nat)
    ensures size == |Cells(bufs)|
  {
    size := 0;
    for i := 0 to |bufs|
      invariant size + |Cells(bufs[i..])| == |Cells(bufs)|
    {
      size := size + bufs[i].size;
      assert bufs[i..][1..] == bufs[i + 1..];
    }
  }

  // `fuse_buf_copy`: a vector copied onto itself stays as it is.
  method BufCopy(mem: array<Byte>, dstv: Vector, srcv: Vector) returns (copied: nat)
    requires dstv != srcv ==> dstv.Valid() && srcv.Valid() && Separate(mem.Length, srcv.Left(), dstv.Left())
    modifies mem, dstv, srcv
    ensures dstv == srcv ==> copied == |Cells(srcv.bufs)| && unchanged(mem, srcv)
    ensures dstv != srcv ==>
      && copied == Min(old(|srcv.Left()|), old(|dstv.Left()|))
      && srcv.Valid() && srcv.Left() == old(srcv.Left())[copied..]
      && dstv.Valid() && (copied < old(|srcv.Left()|) ==> dstv.Left() == [])
      && Copied(old(mem[..]), mem[..], old(srcv.Left()), old(dstv.Left()), copied)
  {
    if dstv == srcv {
      copied := BufSize(dstv.bufs);
    } else {
      copied := CopyLoop(mem, dstv, srcv);
    }
  }

  // One turn of the loop: as many bytes as the current buffers both have left.
  method CopyCurrent(mem: array<Byte>, dstv: Vector, srcv: Vector, ghost before: seq<Byte>, ghost s: seq<nat>,
      ghost d: seq<nat>, ghost n: nat)
    returns (len: nat)
    requires dstv.Valid() && srcv.Valid() && srcv.idx < |srcv.bufs| && dstv.idx < |dstv.bufs|
    requires |before| == mem.Length && n <= |s| && n <= |d| && Separate(mem.Length, s, d)
    requires srcv.Left() == s[n..] && dstv.Left() == d[n..] && Copied(before, mem[..], s, d, n)
    modifies mem
    ensures len == Min(srcv.bufs[srcv.idx].size - srcv.off, dstv.bufs[dstv.idx].size - dstv.off)
    ensures n + len <= |s| && n + len <= |d| && Copied(before, mem[..], s, d, n + len)
    ensures s[n..][len..] == s[n + len..] && d[n..][len..] == d[n + len..]
  {
    hide Copied, Separate, Chunk, Rest, Run, Range, Cells;
    var src, dst := srcv.bufs[srcv.idx], dstv.bufs[dstv.idx];
    len := Min(src.size - srcv.off, dst.size - dstv.off);
    RestWithin(srcv.bufs, srcv.idx, srcv.off, len);
    RestWithin(dstv.bufs, dstv.idx, dstv.off, len);
    ghost var mid := mem[..];
    NextCells(s, d, n, src.mem + srcv.off, dst.mem + dstv.off, len, mem.Length);
    CopyOne(mem, dst.mem + dstv.off, src.mem + srcv.off, len);
    assert |before| == |mid| == |mem[..]| == mem.Length;
    CopiedMore(before, mid, mem[..], s, d, n, len, src.mem + srcv.off, dst.mem + dstv.off);
  }

  // The loop of `fuse_buf_copy`.
  method CopyLoop(mem: array<Byte>, dstv: Vector, srcv: Vector) returns (copied: nat)
    requires dstv != srcv && dstv.Valid() && srcv.Valid() && Separate(mem.Length, srcv.Left(), dstv.Left())
    modifies mem, dstv, srcv
    ensures copied == Min(old(|srcv.Left()|), old(|dstv.Left()|))
    ensures srcv.Valid() && srcv.Left() == old(srcv.Left())[copied..]
    ensures dstv.Valid() && (copied < old(|srcv.Left()|) ==> dstv.Left() == [])
    ensures Copied(old(mem[..]), mem[..], old(srcv.Left()), old(dstv.Left()), copied)
  {
    hide Copied, Separate, Chunk, Rest, Run, Range, Cells;
    ghost var before, s, d := mem[..], srcv.Left(), dstv.Left();
    copied := 0;
    CopiedNothing(before, s, d);
    assert s[0..] == s && d[0..] == d;
    while true
      invariant srcv.Valid() && dstv.Valid() && copied <= |s| && copied <= |d|
      invariant srcv.Left() == s[copied..] && dstv.Left() == d[copied..]
      invariant Copied(before, mem[..], s, d, copied)
      decreases |srcv.bufs| - srcv.idx + |dstv.bufs| - dstv.idx
    {
      if srcv.idx == |srcv.bufs| || dstv.idx == |dstv.bufs| {
        RestEnd(srcv.bufs, srcv.off);
        RestEnd(dstv.bufs, dstv.off);
        break;
      }
      var len := CopyCurrent(mem, dstv, srcv, before, s, d, copied);
      copied := copied + len;
      var more := srcv.Advance(len);
      if !more {
        RestEnd(srcv.bufs, srcv.off);
        break;
      }
      more := dstv.Advance(len);
      if !more {
        RestEnd(dstv.bufs, dstv.off);
        break;
      }
    }
  }

  lemma CopiedNothing(before: seq<Byte>, s: seq<nat>, d: seq<nat>)
    requires Separate(|before|, s, d)
    ensures Copied(before, before, s, d, 0)
  {
  }

  lemma RestEnd(bufs: seq<Buf>, off: nat)
    ensures Rest(bufs, |bufs|, off) == []
  {
  }

  lemma NextCells(s: seq<nat>, d: seq<nat>, n: nat, sa: nat, da: nat, len: nat, length: nat)
    requires n <= |s| && n <= |d| && len <= |s[n..]| && len <= |d[n..]| && Separate(length, s, d)
    requires s[n..][..len] == Range(sa, len) && d[n..][..len] == Range(da, len)
    ensures n + len <= |s| && n + len <= |d| && Run(s, n, len, sa) && Run(d, n, len, da)
    ensures len > 0 ==> sa + len <= length && da + len <= length
    ensures s[n..][len..] == s[n + len..] && d[n..][len..] == d[n + len..]
  {
    assert s[n..][..len] == s[n..n + len] && d[n..][..len] == d[n..n + len];
    RunIsRange(s, n, len, sa);
    RunIsRange(d, n, len, da);
    if len > 0 {
      assert s[n + len - 1] == s[n..n + len][len - 1] && d[n + len - 1] == d[n..n + len][len - 1];
    }
  }
}
