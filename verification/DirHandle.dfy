/** The directory handle of `fuse_lib_readdir`: a growing buffer of records, its length, and whether it holds the
    complete listing. */
module DirHandle {
  import opened Common
  import opened DirStream

  const MAX_SIZE: nat := 0xffff_ffff

  // A length stored in 32 bits.
  function Truncated(n: nat): (r: nat)
    ensures r <= MAX_SIZE && (n <= MAX_SIZE ==> r == n) && (n > MAX_SIZE ==> r < n)
  {
    n % U32
  }

  function Splice(s: seq<Byte>, pos: nat, bytes: seq<Byte>): (r: seq<Byte>)
    requires pos + |bytes| <= |s|
    ensures |r| == |s|
  {
    s[..pos] + bytes + s[pos + |bytes|..]
  }

  lemma SpliceTwice(s: seq<Byte>, pos: nat, a: seq<Byte>, b: seq<Byte>)
    requires pos + |a| + |b| <= |s|
    ensures Splice(Splice(s, pos, a), pos + |a|, b) == Splice(s, pos, a + b)
  {
    var t := Splice(s, pos, a);
    assert t[..pos + |a|] == s[..pos] + a;
    assert t[pos + |a| + |b|..] == s[pos + |a| + |b|..];
  }

  method Put(buf: array<Byte>, pos: nat, bytes: seq<Byte>)
    requires pos + |bytes| <= buf.Length
    modifies buf
    ensures buf[..] == Splice(old(buf[..]), pos, bytes)
  {
    for i := 0 to |bytes|
      invariant forall j {:trigger bytes[j]} :: 0 <= j < i ==> buf[pos + j] == bytes[j]
      invariant forall a :: 0 <= a < buf.Length && !(pos <= a < pos + i) ==> buf[a] == old(buf[a])
    {
      buf[pos + i] := bytes[i];
    }
    assert buf[pos..pos + |bytes|] == bytes;
    assert buf[..] == buf[..pos] + buf[pos..pos + |bytes|] + buf[pos + |bytes|..];
  }

  // `fuse_add_dirent`
  method AddDirent(buf: array<Byte>, pos: nat, e: Entry, off: nat)
    requires pos + Size(e) <= buf.Length
    modifies buf
    ensures buf[..] == Splice(old(buf[..]), pos, Record(e, off))
  {
    hide Le, DirentSize, Splice;
    ghost var s := buf[..];
    var namelen := |e.name|;
    var padlen := Size(e) - 24 - namelen;
    Put(buf, pos, Le(e.ino, 8));
    Put(buf, pos + 8, Le(off, 8));
    SpliceTwice(s, pos, Le(e.ino, 8), Le(off, 8));
    Put(buf, pos + 16, Le(namelen, 4));
    SpliceTwice(s, pos, Le(e.ino, 8) + Le(off, 8), Le(namelen, 4));
    Put(buf, pos + 20, Le(e.kind, 4));
    SpliceTwice(s, pos, Le(e.ino, 8) + Le(off, 8) + Le(namelen, 4), Le(e.kind, 4));
    Put(buf, pos + 24, e.name);
    SpliceTwice(s, pos, Header(e, off), e.name);
    Put(buf, pos + 24 + namelen, Zeros(padlen));
    SpliceTwice(s, pos, Header(e, off) + e.name, Zeros(padlen));
    assert Header(e, off) + e.name + Zeros(padlen) == Record(e, off);
  }

  // `fuse_add_direntry`
  method AddDirentry(buf: array<Byte>, pos: nat, bufsize: nat, e: Entry, off: nat) returns (entsize: nat)
    requires pos + bufsize <= buf.Length
    modifies buf
    ensures entsize == Size(e)
    ensures buf[..] == if entsize <= bufsize then Splice(old(buf[..]), pos, Record(e, off)) else old(buf[..])
  {
    entsize := DirentSize(|e.name|);
    if entsize <= bufsize {
      AddDirent(buf, pos, e, off);
    }
  }

  // All offsets zero or none, as the two modes of `readdir` demand.
  ghost predicate OneMode(listing: seq<Item>) {
    (forall i :: 0 <= i < |listing| ==> listing[i].off == 0) || AllOffsets(listing)
  }

  function Total(listing: seq<Item>): nat {
    if listing == [] then 0 else Size(listing[0].entry) + Total(listing[1..])
  }

  // ------------------------------------------------------------------ memory for a listing

  // The doubling loop of `extend_contents`.
  function Doubled(n: nat, minsize: nat): (r: nat)
    requires 0 < n <= MAX_SIZE && minsize <= MAX_SIZE
    ensures minsize <= r <= MAX_SIZE && n <= r && (n < minsize ==> r == MAX_SIZE || r >= 2 * n)
    decreases MAX_SIZE - n
  {
    if n >= minsize then n else Doubled(if n >= 0x8000_0000 then MAX_SIZE else 2 * n, minsize)
  }

  // The size of the buffer once it holds `minsize` bytes: at least doubled, if it had to grow.
  function NewSize(size: nat, minsize: nat): (r: nat)
    requires size <= MAX_SIZE && minsize <= MAX_SIZE
    ensures minsize <= r <= MAX_SIZE && size <= r && (size < minsize ==> r == MAX_SIZE || r >= 2 * size)
  {
    if minsize <= size then size else Doubled(if size == 0 then 1024 else size, minsize)
  }

  // What has been filled, the size of the buffer, and whether memory has run out.
  datatype Buffer = Buffer(st: Filling, size: nat, error: bool)

  function Needed(st: Filling, it: Item, needlen: nat): nat {
    if it.off == 0 then |st.bytes| + Size(it.entry) else needlen
  }

  // `fill_dir`: an entry for which there is no memory stops the listing.
  function FillWith(b: Buffer, it: Item, needlen: nat, allocOk: bool): Buffer
    requires b.size <= MAX_SIZE && Needed(b.st, it, needlen) <= MAX_SIZE
  {
    if Needed(b.st, it, needlen) > b.size && !allocOk then Buffer(b.st.(stopped := true), b.size, true)
    else Buffer(FillOne(b.st, it, needlen), NewSize(b.size, Needed(b.st, it, needlen)), b.error)
  }

  // A whole listing; `allocOk` gives the outcome of the allocation that each entry may need.
  ghost function FillFrom(b: Buffer, listing: seq<Item>, i: nat, needlen: nat, allocOk: nat -> bool): Buffer
    decreases |listing| - i
  {
    if i >= |listing| || b.st.stopped || b.size > MAX_SIZE || Needed(b.st, listing[i], needlen) > MAX_SIZE then b
    else FillFrom(FillWith(b, listing[i], needlen, allocOk(i)), listing, i + 1, needlen, allocOk)
  }

  // When no allocation fails, the listing is what it is with unlimited memory.
  lemma {:induction false} FillEnough(b: Buffer, listing: seq<Item>, i: nat, needlen: nat, allocOk: nat -> bool)
    requires i <= |listing| && b.size <= MAX_SIZE && needlen <= MAX_SIZE && OneMode(listing)
    requires AllOffsets(listing) || |b.st.bytes| + Total(listing[i..]) <= MAX_SIZE
    requires forall k :: i <= k < |listing| ==> allocOk(k)
    ensures FillFrom(b, listing, i, needlen, allocOk).st == FillAll(b.st, listing[i..], needlen)
    ensures FillFrom(b, listing, i, needlen, allocOk).error == b.error
    decreases |listing| - i
  {
    hide Size, Total, NewSize, FillOne, OneMode;
    if i < |listing| && !b.st.stopped {
      FillStep(b.st, listing, i, needlen);
      FillEnough(FillWith(b, listing[i], needlen, true), listing, i + 1, needlen, allocOk);
    }
  }

  datatype Outcome = Data(bytes: seq<Byte>) | Error

  class Handle {
    var contents: array<Byte>
    var len: nat
    var needlen: nat
    var filled: bool
    var error: bool

    ghost predicate Valid()
      reads this
    {
      len <= contents.Length <= MAX_SIZE && needlen <= MAX_SIZE
    }

    ghost function Bytes(): seq<Byte>
      requires Valid()
      reads this, contents
    {
      contents[..len]
    }

    constructor ()
      ensures Valid() && Bytes() == [] && !filled && fresh(contents)
    {
      contents := new Byte[0];
      len, needlen, filled, error := 0, 0, false, false;
    }

    // `extend_contents`; `allocOk` is the outcome of `realloc`, where it is called.
    method ExtendContents(minsize: nat, allocOk: bool) returns (ok: bool)
      requires Valid() && minsize <= MAX_SIZE
      modifies this`contents, this`error
      ensures Valid() && Bytes() == old(Bytes()) && (contents == old(contents) || fresh(contents))
      ensures ok <==> minsize <= old(contents.Length) || allocOk
      ensures contents.Length == if ok then NewSize(old(contents.Length), minsize) else old(contents.Length)
      ensures error <==> old(error) || !ok
    {
      ok := true;
      var size := contents.Length;
      if minsize > size {
        var newsize := size;
        if newsize == 0 {
          newsize := 1024;
        }
        while newsize < minsize
          invariant size <= newsize <= MAX_SIZE && newsize > 0
          invariant NewSize(size, minsize) == Doubled(newsize, minsize)
          decreases MAX_SIZE - newsize
        {
          newsize := if newsize >= 0x8000_0000 then MAX_SIZE else 2 * newsize;
        }
        if !allocOk {
          error := true;
          return false;
        }
        Realloc(newsize);
      }
    }

    // A `realloc` that succeeds.
    method Realloc(newsize: nat)
      requires Valid() && contents.Length <= newsize <= MAX_SIZE
      modifies this`contents
      ensures Valid() && Bytes() == old(Bytes()) && contents.Length == newsize && fresh(contents)
    {
      var ptr := contents;
      var newptr := new Byte[newsize];
      for i := 0 to ptr.Length
        invariant contents == ptr && newptr[..i] == ptr[..i]
      {
        newptr[i] := ptr[i];
      }
      assert newptr[..len] == newptr[..ptr.Length][..len];
      contents := newptr;
    }

    ghost function State(stop: bool): Filling
      requires Valid()
      reads this, contents
    {
      Filling(Bytes(), filled, stop)
    }

    ghost function View(stop: bool): Buffer
      requires Valid()
      reads this, contents
    {
      Buffer(State(stop), contents.Length, error)
    }

    // `fill_dir`.  The lengths are 32-bit numbers.
    method FillDir(it: Item, allocOk: bool) returns (stop: bool)
      requires Valid() && (it.off != 0 ==> len <= needlen)
      modifies this`contents, this`len, this`filled, this`error, contents
      ensures Valid() && (contents == old(contents) || fresh(contents))
      ensures it.off != 0 ==> len <= needlen
      ensures old(Needed(State(false), it, needlen)) <= MAX_SIZE ==>
        View(stop) == FillWith(old(View(false)), it, needlen, allocOk)
    {
      if it.off != 0 {
        stop := FillAtOffset(it.entry, it.off, allocOk);
      } else {
        stop := FillWhole(it.entry, allocOk);
      }
    }

    // A record behind the listing, if it fits into `room` bytes.
    method AddAtEnd(room: nat, e: Entry, off: nat) returns (entsize: nat)
      requires Valid() && len + room <= contents.Length
      modifies contents
      ensures entsize == Size(e) && Bytes() == old(Bytes())
      ensures entsize <= room ==> contents[..len + entsize] == old(Bytes()) + Record(e, off)
    {
      hide Size, Record, Splice;
      ghost var s := contents[..];
      assert s[..len] == Bytes();
      entsize := AddDirentry(contents, len, room, e, off);
      RecordLength(e, off);
      if entsize <= room {
        SplicePrefix(s, len, Record(e, off));
        assert contents[..len + entsize] == contents[..][..len + entsize];
        assert contents[..len] == contents[..len + entsize][..len];
      } else {
        assert contents[..len] == s[..len];
      }
    }

    method FillAtOffset(e: Entry, off: nat, allocOk: bool) returns (stop: bool)
      requires Valid() && len <= needlen && off != 0
      modifies this`contents, this`len, this`filled, this`error, contents
      ensures Valid() && (contents == old(contents) || fresh(contents)) && len <= needlen
      ensures View(stop) == FillWith(old(View(false)), Item(e, off), needlen, allocOk)
    {
      hide Size, Record, Splice, NewSize;
      var ok := ExtendContents(needlen, allocOk);
      if !ok {
        return true;
      }
      filled := false;
      var entsize := AddAtEnd(needlen - len, e, off);
      if len + entsize > needlen {
        return true;
      }
      len := len + entsize;
      stop := false;
    }

    method FillWhole(e: Entry, allocOk: bool) returns (stop: bool)
      requires Valid()
      modifies this`contents, this`len, this`error, contents
      ensures Valid() && (contents == old(contents) || fresh(contents))
      ensures old(len) + Size(e) <= MAX_SIZE ==> View(stop) == FillWith(old(View(false)), Item(e, 0), needlen, allocOk)
    {
      hide Size, Record, Splice, NewSize, Truncated;
      var newlen := len + Size(e);
      var ok := ExtendContents(Truncated(newlen), allocOk);
      if !ok {
        return true;
      }
      var _ := AddAtEnd(contents.Length - len, e, newlen);
      len := Truncated(newlen);
      stop := false;
    }

    // The file system's `readdir`: it calls the filler for each entry until the filler says stop.
    method FillEntries(listing: seq<Item>, allocOk: nat -> bool) returns (ghost stop: bool)
      requires Valid() && len == 0 && filled && !error && OneMode(listing)
      modifies this`contents, this`len, this`filled, this`error, contents
      ensures Valid() && (contents == old(contents) || fresh(contents))
      ensures Fits32(listing) ==>
        View(stop) == FillFrom(Buffer(Fresh(), old(contents.Length), false), listing, 0, needlen, allocOk)
    {
      hide FillOne, OneMode, Size, Total, NewSize, FillWith, Needed;
      var i, stopped := 0, false;
      assert Bytes() == [] && listing[0..] == listing;
      ghost var b := View(false);
      while i < |listing| && !stopped
        invariant i <= |listing| && Valid() && (contents == old(contents) || fresh(contents))
        invariant AllOffsets(listing) ==> len <= needlen
        invariant Fits32(listing) ==>
          FillFrom(View(stopped), listing, i, needlen, allocOk) == FillFrom(b, listing, 0, needlen, allocOk)
        invariant Fits32(listing) && !AllOffsets(listing) ==> len + Total(listing[i..]) <= MAX_SIZE
      {
        FillStep(State(false), listing, i, needlen);
        NeedStep(View(false), listing[i], needlen, allocOk(i));
        stopped := FillDir(listing[i], allocOk(i));
        i := i + 1;
      }
      stop := stopped;
    }

    // `fuse_lib_readdir`, with `readdir_fill` in it: the listing is made anew at offset 0 and whenever it is not
    // complete.
    method Readdir(off: nat, size: nat, listing: seq<Item>, pathError: bool, fsError: bool, allocOk: nat -> bool)
      returns (r: Outcome)
      requires Valid() && size <= MAX_SIZE && OneMode(listing)
      modifies this, contents
      ensures Valid() && (contents == old(contents) || fresh(contents))
      ensures r.Error? ==> !filled && (off == 0 || !old(filled))
      ensures off != 0 && old(filled) ==> State(false) == old(State(false)) && r == Data(Reply(State(false), off, size))
      ensures (off == 0 || !old(filled)) && Fits32(listing) ==>
        var f := FillFrom(Buffer(Fresh(), old(contents.Length), false), listing, 0, size, allocOk);
        && (r.Error? <==> pathError || fsError || f.error)
        && (r.Data? ==> Bytes() == f.st.bytes && filled == f.st.filled && r == Data(Reply(f.st, off, size)))
    {
      hide FillFrom, OneMode, Fits32;
      if off == 0 {
        filled := false;
      }
      if !filled {
        if pathError {
          return Error;
        }
        len, error, needlen, filled := 0, false, size, true;
        ghost var stop := FillEntries(listing, allocOk);
        if fsError || error {
          filled := false;
          return Error;
        }
      }
      if filled {
        r := Data(if off >= len then []
                  else if off + size > len then contents[off..len]
                  else contents[off..off + size]);
      } else {
        r := Data(contents[..len]);
      }
    }
  }

  // An entry adds at most its record, and needs at most that much more room.
  lemma NeedStep(b: Buffer, it: Item, needlen: nat, allocOk: bool)
    requires b.size <= MAX_SIZE && needlen <= MAX_SIZE
    ensures Needed(b.st, it, needlen) <= MAX_SIZE <==> it.off != 0 || |b.st.bytes| + Size(it.entry) <= MAX_SIZE
    ensures Needed(b.st, it, needlen) <= MAX_SIZE ==>
      |FillWith(b, it, needlen, allocOk).st.bytes| <= |b.st.bytes| + Size(it.entry)
  {
    hide Size, NewSize;
  }

  ghost predicate AllOffsets(listing: seq<Item>) {
    forall i :: 0 <= i < |listing| ==> listing[i].off != 0
  }

  // The records of a listing without offsets fit into a 32-bit length.
  ghost predicate Fits32(listing: seq<Item>) {
    AllOffsets(listing) || Total(listing) <= MAX_SIZE
  }

  lemma SplicePrefix(s: seq<Byte>, pos: nat, bytes: seq<Byte>)
    requires pos + |bytes| <= |s|
    ensures Splice(s, pos, bytes)[..pos + |bytes|] == s[..pos] + bytes
  {
  }

  lemma {:induction false} FillStep(st: Filling, listing: seq<Item>, i: nat, needlen: nat)
    requires i < |listing| && !st.stopped && OneMode(listing)
    ensures FillAll(st, listing[i..], needlen) == FillAll(FillOne(st, listing[i], needlen), listing[i + 1..], needlen)
    ensures |FillOne(st, listing[i], needlen).bytes| <= |st.bytes| + Size(listing[i].entry)
    ensures Total(listing[i..]) == Size(listing[i].entry) + Total(listing[i + 1..])
    ensures listing[i].off != 0 <==> AllOffsets(listing)
  {
    assert listing[i..][1..] == listing[i + 1..];
  }

  // ------------------------------------------------------------------ a reader

  lemma {:induction false} TotalIs(es: seq<Entry>, base: nat)
    ensures Total(Unnumbered(es)) == |Records(Numbered(es, base))|
    decreases |es|
  {
    hide Size, Record;
    if es != [] {
      TotalIs(es[1..], base + Size(es[0]));
      RecordLength(es[0], base + Size(es[0]));
      assert Unnumbered(es)[1..] == Unnumbered(es[1..]);
      assert Numbered(es, base)[1..] == Numbered(es[1..], base + Size(es[0]));
    }
  }

  // A file system that passes no offsets, with enough memory: the handle has the complete listing.
  lemma ListingFilled(es: seq<Entry>, size: nat, needlen: nat)
    requires Entriable(es) && size <= MAX_SIZE && needlen <= MAX_SIZE
    ensures OneMode(Unnumbered(es)) && Fits32(Unnumbered(es))
    ensures var f := FillFrom(Buffer(Fresh(), size, false), Unnumbered(es), 0, needlen, _ => true);
            f.st == Complete(es) && !f.error
  {
    hide Size, Numbered, Records, FillAll;
    TotalIs(es, 0);
    assert Unnumbered(es)[0..] == Unnumbered(es);
    FillEnough(Buffer(Fresh(), size, false), Unnumbered(es), 0, needlen, _ => true);
    FillUnnumbered(es, [], true, needlen);
    assert [] + Records(Numbered(es, 0)) == Records(Numbered(es, 0));
  }

  // One request of such a reader.
  method Request(h: Handle, es: seq<Entry>, off: nat, size: nat) returns (bytes: seq<Byte>)
    requires h.Valid() && Entriable(es) && size <= MAX_SIZE && (off != 0 ==> h.State(false) == Complete(es))
    modifies h, h.contents
    ensures h.Valid() && (h.contents == old(h.contents) || fresh(h.contents))
    ensures bytes == Reply(Complete(es), off, size) && h.State(false) == Complete(es)
  {
    hide Numbered, Records, Entriable, Fits32, OneMode, FillFrom, Reply;
    ListingFilled(es, h.contents.Length, size);
    var r := h.Readdir(off, size, Unnumbered(es), false, false, _ => true);
    bytes := r.bytes;
  }

  lemma {:induction false} SessionStep(serve: (nat, nat) -> seq<Byte>, off: nat, sizes: seq<nat>, k: nat,
      seen: seq<Entry>)
    requires k < |sizes|
    ensures var got := Parse(serve(off, sizes[k]));
            seen + Session(serve, off, sizes[k..]) ==
              seen + Entries(got) + Session(serve, Resume(off, got), sizes[k + 1..])
  {
    hide Parse, Entries;
    assert sizes[k..][0] == sizes[k] && sizes[k..][1..] == sizes[k + 1..];
  }

  // Reading a directory through a handle, request by request, resuming at the last offset: with as many requests as
  // entries, none smaller than the largest record, every entry is seen once and in order.
  method ReadDirectory(h: Handle, es: seq<Entry>, sizes: seq<nat>) returns (seen: seq<Entry>)
    requires h.Valid() && Entriable(es) && forall k :: 0 <= k < |sizes| ==> sizes[k] <= MAX_SIZE
    modifies h, h.contents
    ensures seen == Session((off, size) => Reply(Complete(es), off, size), 0, sizes)
    ensures |sizes| >= |es| && (forall k :: 0 <= k < |sizes| ==> AllFit(Numbered(es, 0), sizes[k])) ==> seen == es
  {
    hide Parse, Entriable, Reply, AllFit, Session, Complete;
    ghost var serve := (off: nat, size: nat) => Reply(Complete(es), off, size);
    seen := [];
    var off := 0;
    assert sizes[0..] == sizes && [] + Session(serve, 0, sizes) == Session(serve, 0, sizes);
    for k := 0 to |sizes|
      invariant h.Valid() && (h.contents == old(h.contents) || fresh(h.contents))
      invariant off != 0 ==> h.State(false) == Complete(es)
      invariant seen + Session(serve, off, sizes[k..]) == Session(serve, 0, sizes)
    {
      SessionStep(serve, off, sizes, k, seen);
      var bytes := Request(h, es, off, sizes[k]);
      var got := Parse(bytes);
      seen := seen + Entries(got);
      off := Resume(off, got);
    }
    SessionOver(serve, off, sizes[|sizes|..]);
    if |sizes| >= |es| && (forall k :: 0 <= k < |sizes| ==> AllFit(Numbered(es, 0), sizes[k])) {
      ListingSeenOnce(es, sizes, 0);
    }
  }

  lemma {:induction false} SessionOver(serve: (nat, nat) -> seq<Byte>, off: nat, sizes: seq<nat>)
    requires sizes == []
    ensures Session(serve, off, sizes) == []
  {
  }

  // ------------------------------------------------------------------ a reader of a file system with its own offsets

  lemma {:induction false} AfterOffsets(items: seq<Item>, off: nat)
    requires AllOffsets(items)
    ensures AllOffsets(After(items, off))
    decreases |items|
  {
    if off != 0 && items != [] && items[0].off != off {
      AfterOffsets(items[1..], off);
    }
  }

  // The listing that such a file system fills for a request.
  ghost function Listed(items: seq<Item>, off: nat, size: nat): Filling {
    FillAll(Fresh(), After(items, off), size)
  }

  lemma OffsetsFilled(items: seq<Item>, off: nat, capacity: nat, size: nat)
    requires AllOffsets(items) && capacity <= MAX_SIZE && size <= MAX_SIZE
    ensures OneMode(After(items, off)) && Fits32(After(items, off))
    ensures var f := FillFrom(Buffer(Fresh(), capacity, false), After(items, off), 0, size, _ => true);
            f.st == Listed(items, off, size) && !f.error
  {
    hide After, FillAll;
    AfterOffsets(items, off);
    assert After(items, off)[0..] == After(items, off);
    FillEnough(Buffer(Fresh(), capacity, false), After(items, off), 0, size, _ => true);
  }

  // A listing is taken for complete only if there was nothing left to list.
  lemma OffsetsComplete(items: seq<Item>, off: nat, size: nat)
    requires AllOffsets(items)
    ensures Listed(items, off, size).filled ==> After(items, off) == [] && Listed(items, off, size) == Fresh()
  {
    AfterOffsets(items, off);
    FillNumbered(After(items, off), [], true, size);
  }

  lemma NothingLeft(items: seq<Item>, off: nat, size: nat)
    requires After(items, off) == []
    ensures Listed(items, off, size) == Fresh()
  {
  }

  // One request of such a reader.  `h` has a listing that counts as complete only at the end of the directory.
  method RequestAfter(h: Handle, items: seq<Item>, off: nat, size: nat) returns (bytes: seq<Byte>)
    requires h.Valid() && AllOffsets(items) && size <= MAX_SIZE
    requires off != 0 && h.filled ==> h.Bytes() == [] && After(items, off) == []
    modifies h, h.contents
    ensures h.Valid() && (h.contents == old(h.contents) || fresh(h.contents))
    ensures bytes == Reply(Listed(items, off, size), off, size)
    ensures h.filled ==> h.Bytes() == [] && After(items, off) == [] && bytes == []
  {
    hide After, FillFrom, OneMode, Fits32, Listed, AllOffsets;
    OffsetsFilled(items, off, h.contents.Length, size);
    OffsetsComplete(items, off, size);
    if off != 0 && h.filled {
      NothingLeft(items, off, size);
    }
    var r := h.Readdir(off, size, After(items, off), false, false, _ => true);
    bytes := r.bytes;
  }

  // Reading a directory through a handle when the file system passes its own, distinct offsets.
  method ReadDirectoryAfter(h: Handle, items: seq<Item>, sizes: seq<nat>) returns (seen: seq<Entry>)
    requires h.Valid() && AllPlain(items) && DistinctOffsets(items) && forall k :: 0 <= k < |sizes| ==>
      sizes[k] <= MAX_SIZE
    modifies h, h.contents
    ensures |sizes| >= |items| && (forall k :: 0 <= k < |sizes| ==> AllFit(items, sizes[k])) ==> seen == Entries(items)
    ensures seen == Session((off, size) => Reply(FillAll(Fresh(), After(items, off), size), off, size), 0, sizes)
  {
    hide Parse, Reply, AllFit, Session, After, AllPlain;
    ghost var serve := (off: nat, size: nat) => Reply(FillAll(Fresh(), After(items, off), size), off, size);
    seen := [];
    var off := 0;
    assert sizes[0..] == sizes && [] + Session(serve, 0, sizes) == Session(serve, 0, sizes);
    for k := 0 to |sizes|
      invariant h.Valid() && (h.contents == old(h.contents) || fresh(h.contents))
      invariant off != 0 && h.filled ==> h.Bytes() == [] && After(items, off) == []
      invariant seen + Session(serve, off, sizes[k..]) == Session(serve, 0, sizes)
    {
      SessionStep(serve, off, sizes, k, seen);
      var bytes := RequestAfter(h, items, off, sizes[k]);
      var got := Parse(bytes);
      if bytes == [] {
        ParseNothing();
      }
      seen := seen + Entries(got);
      off := Resume(off, got);
    }
    SessionOver(serve, off, sizes[|sizes|..]);
    if |sizes| >= |items| && (forall k :: 0 <= k < |sizes| ==> AllFit(items, sizes[k])) {
      OffsetsSeenOnce(items, sizes);
    }
  }
}
