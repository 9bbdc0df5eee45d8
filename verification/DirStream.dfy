/** Directory listings: how `fill_dir` packs entries into a buffer, how `fuse_lib_readdir` hands the buffer out in
    pieces, and what a reader that resumes at the last record's offset sees. */
module DirStream {
  import opened Common

  const U32: nat := 0x1_0000_0000
  const U64: nat := 0x1_0000_0000_0000_0000

  // ---- Numbers, little endian ----

  function Le(v: nat, n: nat): (s: seq<Byte>)
    ensures |s| == n
    decreases n
  {
    if n == 0 then [] else [v % 256] + Le(v / 256, n - 1)
  }

  function UnLe(s: seq<Byte>): nat {
    if s == [] then 0 else s[0] + 256 * UnLe(s[1..])
  }

  function Power256(n: nat): nat {
    if n == 0 then 1 else 256 * Power256(n - 1)
  }

  lemma {:induction false} LeRoundTrip(v: nat, n: nat)
    requires v < Power256(n)
    ensures UnLe(Le(v, n)) == v
    decreases n
  {
    if n > 0 {
      LeRoundTrip(v / 256, n - 1);
      assert Le(v, n)[1..] == Le(v / 256, n - 1);
    }
  }

  lemma Widths()
    ensures Power256(4) == U32 && Power256(8) == U64
  {
    assert Power256(2) == 0x1_0000 && Power256(4) == 0x10000 * Power256(2);
    assert Power256(6) == 0x10000 * Power256(4);
  }

  // ---- One record ----

  datatype Entry = Entry(name: seq<Byte>, ino: nat, kind: nat)

  predicate Plain(e: Entry) {
    |e.name| < U32 && e.ino < U64 && e.kind < U32
  }

  // `fuse_dirent_size`
  function DirentSize(namelen: nat): (n: nat)
    ensures 24 + namelen <= n < 24 + namelen + 8 && n % 8 == 0
  {
    (24 + namelen + 7) / 8 * 8
  }

  function Size(e: Entry): nat {
    DirentSize(|e.name|)
  }

  function Zeros(n: nat): (s: seq<Byte>)
    ensures |s| == n
  {
    seq(n, i => 0)
  }

  function Header(e: Entry, off: nat): (s: seq<Byte>)
    ensures |s| == 24
  {
    Le(e.ino, 8) + Le(off, 8) + Le(|e.name|, 4) + Le(e.kind, 4)
  }

  // The bytes `fuse_add_dirent` writes.
  function Record(e: Entry, off: nat): (s: seq<Byte>)
    ensures |s| == Size(e)
  {
    Header(e, off) + (e.name + Zeros(Size(e) - 24 - |e.name|))
  }

  // ---- The reader: whole records from the front ----

  datatype Item = Item(entry: Entry, off: nat)

  function NameLen(buf: seq<Byte>): nat
    requires |buf| >= 24
  {
    UnLe(buf[16..20])
  }

  function ReadOne(buf: seq<Byte>): Item
    requires |buf| >= 24 && 24 + NameLen(buf) <= |buf|
  {
    Item(Entry(buf[24..24 + NameLen(buf)], UnLe(buf[..8]), UnLe(buf[20..24])), UnLe(buf[8..16]))
  }

  function Parse(buf: seq<Byte>): seq<Item>
    decreases |buf|
  {
    if |buf| < 24 || DirentSize(NameLen(buf)) > |buf| then []
    else [ReadOne(buf)] + Parse(buf[DirentSize(NameLen(buf))..])
  }

  lemma HeaderFields(e: Entry, off: nat, buf: seq<Byte>)
    requires Plain(e) && off < U64 && |buf| >= 24 && buf[..24] == Header(e, off)
    ensures NameLen(buf) == |e.name| && UnLe(buf[..8]) == e.ino && UnLe(buf[20..24]) == e.kind &&
      UnLe(buf[8..16]) == off
  {
    hide Le, UnLe, Power256;
    Widths();
    LeRoundTrip(e.ino, 8);
    LeRoundTrip(off, 8);
    LeRoundTrip(|e.name|, 4);
    LeRoundTrip(e.kind, 4);
    var h := Header(e, off);
    assert h[..8] == Le(e.ino, 8) && h[8..16] == Le(off, 8) && h[16..20] == Le(|e.name|, 4) &&
      h[20..24] == Le(e.kind, 4);
    assert buf[..8] == h[..8] && buf[8..16] == h[8..16] && buf[16..20] == h[16..20] && buf[20..24] == h[20..24];
  }

  lemma {:induction false} ParseRecord(e: Entry, off: nat, rest: seq<Byte>)
    requires Plain(e) && off < U64
    ensures Parse(Record(e, off) + rest) == [Item(e, off)] + Parse(rest)
  {
    hide Header, UnLe, DirentSize;
    var buf := Record(e, off) + rest;
    assert buf[..24] == Header(e, off);
    HeaderFields(e, off, buf);
    assert buf[24..24 + |e.name|] == e.name;
    assert buf[Size(e)..] == rest;
  }

  lemma ParseCut(e: Entry, off: nat, buf: seq<Byte>, k: nat)
    requires Plain(e) && off < U64 && k < Size(e) && k <= |Record(e, off) + buf|
    ensures Parse((Record(e, off) + buf)[..k]) == []
  {
    hide Header, UnLe, DirentSize;
    var cut := (Record(e, off) + buf)[..k];
    if k >= 24 {
      assert cut[..24] == Header(e, off);
      HeaderFields(e, off, cut);
    }
  }

  // ---- A stream of records ----

  function Records(items: seq<Item>): seq<Byte> {
    if items == [] then [] else Record(items[0].entry, items[0].off) + Records(items[1..])
  }

  ghost predicate AllPlain(items: seq<Item>) {
    forall i :: 0 <= i < |items| ==> Plain(items[i].entry) && items[i].off < U64
  }

  // How many whole records `size` bytes hold.
  function Fit(items: seq<Item>, size: nat): (k: nat)
    ensures k <= |items|
  {
    if items == [] || Size(items[0].entry) > size then 0 else 1 + Fit(items[1..], size - Size(items[0].entry))
  }

  function Cut(s: seq<Byte>, size: nat): seq<Byte> {
    if size < |s| then s[..size] else s
  }

  // Parsing the first `size` bytes of a stream gives exactly the records that lie within them.
  lemma {:induction false} ParsePrefix(items: seq<Item>, size: nat)
    requires AllPlain(items)
    ensures Parse(Cut(Records(items), size)) == items[..Fit(items, size)]
    decreases |items|
  {
    hide Record, Size, DirentSize, ReadOne, NameLen;
    if items != [] {
      var e, off, rest := items[0].entry, items[0].off, Records(items[1..]);
      if Size(e) > size {
        ParseCut(e, off, rest, size);
      } else {
        ParsePrefix(items[1..], size - Size(e));
        ParseRecord(e, off, Cut(rest, size - Size(e)));
        CutTail(Record(e, off), rest, size);
        assert items[..Fit(items, size)] == [items[0]] + items[1..][..Fit(items[1..], size - Size(e))];
      }
    }
  }

  lemma CutTail(a: seq<Byte>, b: seq<Byte>, size: nat)
    requires |a| <= size
    ensures Cut(a + b, size) == a + Cut(b, size - |a|)
  {
  }

  lemma {:induction false} RecordsConcat(a: seq<Item>, b: seq<Item>)
    ensures Records(a + b) == Records(a) + Records(b)
    decreases |a|
  {
    hide Record;
    if a == [] {
      assert a + b == b;
    } else {
      RecordsConcat(a[1..], b);
      assert (a + b)[0] == a[0] && (a + b)[1..] == a[1..] + b;
    }
  }

  lemma {:induction false} RecordsPrefix(items: seq<Item>, size: nat)
    ensures |Records(items[..Fit(items, size)])| <= size
    ensures Fit(items, size) < |items| ==>
      |Records(items[..Fit(items, size)])| + Size(items[Fit(items, size)].entry) > size
    decreases |items|
  {
    hide Record, Size;
    if items != [] && Size(items[0].entry) <= size {
      var k := Fit(items[1..], size - Size(items[0].entry));
      RecordsPrefix(items[1..], size - Size(items[0].entry));
      assert items[..k + 1] == [items[0]] + items[1..][..k];
      assert items[..k + 1][1..] == items[1..][..k];
    }
  }

  // ---- Reading a directory with many requests ----

  // Where the reader resumes: 0 at first, then the offset of the last record it consumed.
  function Cookie(items: seq<Item>, i: nat): nat
    requires i <= |items|
  {
    if i == 0 then 0 else items[i - 1].off
  }

  function Resume(off: nat, got: seq<Item>): nat {
    if got == [] then off else got[|got| - 1].off
  }

  function Entries(items: seq<Item>): seq<Entry> {
    seq(|items|, i requires 0 <= i < |items| => items[i].entry)
  }

  // What a reader sees in a sequence of requests of the given sizes.
  function Session(serve: (nat, nat) -> seq<Byte>, off: nat, sizes: seq<nat>): seq<Entry>
    decreases |sizes|
  {
    if sizes == [] then []
    else
      var got := Parse(serve(off, sizes[0]));
      Entries(got) + Session(serve, Resume(off, got), sizes[1..])
  }

  // Asked at a cookie, the server returns the whole records that fit.
  ghost predicate Serves(serve: (nat, nat) -> seq<Byte>, items: seq<Item>) {
    forall i, size: nat :: 0 <= i <= |items| ==>
      Parse(serve(Cookie(items, i), size)) == items[i..][..Fit(items[i..], size)]
  }

  function Reached(items: seq<Item>, i: nat, sizes: seq<nat>): (j: nat)
    requires i <= |items|
    ensures i <= j <= |items|
    decreases |sizes|
  {
    if sizes == [] then i else Reached(items, i + Fit(items[i..], sizes[0]), sizes[1..])
  }

  lemma {:induction false} ServesAt(serve: (nat, nat) -> seq<Byte>, items: seq<Item>, i: nat, size: nat)
    requires i <= |items| && Serves(serve, items)
    ensures var got, k := Parse(serve(Cookie(items, i), size)), Fit(items[i..], size);
      got == items[i..i + k] && Resume(Cookie(items, i), got) == Cookie(items, i + k)
  {
    hide Parse, Fit;
    var k := Fit(items[i..], size);
    assert items[i..][..k] == items[i..i + k];
  }

  lemma NoEntries()
    ensures Entries([]) == []
  {
  }

  lemma EntriesSplit(items: seq<Item>, i: nat, k: nat, j: nat)
    requires i <= k <= j <= |items|
    ensures Entries(items[i..j]) == Entries(items[i..k]) + Entries(items[k..j])
  {
  }

  // Whatever the request sizes, the reader sees a run of entries without gap, repetition or reordering.
  lemma {:induction false} SessionInOrder(serve: (nat, nat) -> seq<Byte>, items: seq<Item>, i: nat, sizes: seq<nat>)
    requires i <= |items| && Serves(serve, items)
    ensures Session(serve, Cookie(items, i), sizes) == Entries(items[i..Reached(items, i, sizes)])
    decreases |sizes|
  {
    hide Parse, Fit, Serves, Cookie, Resume, Entries;
    if sizes == [] {
      assert items[i..i] == [];
      assert Entries([]) == [] by { NoEntries(); }
    } else {
      var k := Fit(items[i..], sizes[0]);
      ServesAt(serve, items, i, sizes[0]);
      SessionInOrder(serve, items, i + k, sizes[1..]);
      EntriesSplit(items, i, i + k, Reached(items, i + k, sizes[1..]));
    }
  }

  ghost predicate AllFit(items: seq<Item>, size: nat) {
    forall i :: 0 <= i < |items| ==> Size(items[i].entry) <= size
  }

  // A request makes no progress iff the reader is at the end or the next record is larger than the request.
  lemma {:induction false} ProgressIff(items: seq<Item>, i: nat, size: nat)
    requires i <= |items|
    ensures Fit(items[i..], size) == 0 <==> i == |items| || size < Size(items[i].entry)
  {
  }

  lemma {:induction false} ReachedBound(items: seq<Item>, i: nat, sizes: seq<nat>)
    requires i <= |items| && forall k :: 0 <= k < |sizes| ==> AllFit(items, sizes[k])
    ensures Reached(items, i, sizes) == |items| || Reached(items, i, sizes) >= i + |sizes|
    decreases |sizes|
  {
    hide Size;
    if sizes != [] {
      assert AllFit(items, sizes[0]);
      assert forall k :: 0 <= k < |sizes[1..]| ==> sizes[1..][k] == sizes[k + 1];
      ProgressIff(items, i, sizes[0]);
      ReachedBound(items, i + Fit(items[i..], sizes[0]), sizes[1..]);
    }
  }

  // With requests no smaller than the largest record, as many requests as entries show every entry exactly once.
  lemma {:induction false} EveryEntryOnce(serve: (nat, nat) -> seq<Byte>, items: seq<Item>, sizes: seq<nat>)
    requires Serves(serve, items) && |sizes| >= |items| && forall k :: 0 <= k < |sizes| ==> AllFit(items, sizes[k])
    ensures Session(serve, 0, sizes) == Entries(items)
  {
    hide Serves, AllFit, Session;
    SessionInOrder(serve, items, 0, sizes);
    ReachedBound(items, 0, sizes);
    assert items[0..|items|] == items;
  }

  // ---- The two ways of filling ----

  datatype Filling = Filling(bytes: seq<Byte>, filled: bool, stopped: bool)

  // What `fill_dir` does with one entry when memory suffices.
  function FillOne(st: Filling, it: Item, needlen: nat): Filling {
    if it.off == 0 then
      Filling(st.bytes + Record(it.entry, |st.bytes| + Size(it.entry)), st.filled, false)
    else if |st.bytes| + Size(it.entry) <= needlen then
      Filling(st.bytes + Record(it.entry, it.off), false, false)
    else
      Filling(st.bytes, false, true)
  }

  function Fresh(): Filling {
    Filling([], true, false)
  }

  function FillAll(st: Filling, listing: seq<Item>, needlen: nat): Filling
    decreases |listing|
  {
    if listing == [] || st.stopped then st else FillAll(FillOne(st, listing[0], needlen), listing[1..], needlen)
  }

  // The piece of a complete listing that a request gets, or all that was filled for it.
  function Reply(st: Filling, off: nat, size: nat): seq<Byte> {
    if !st.filled then st.bytes
    else if off < |st.bytes| then Cut(st.bytes[off..], size)
    else []
  }

  // Entries without offsets: each record's offset is the position of the next one.
  function Numbered(es: seq<Entry>, base: nat): (items: seq<Item>)
    ensures |items| == |es| && forall i :: 0 <= i < |es| ==> items[i].entry == es[i]
    decreases |es|
  {
    if es == [] then [] else [Item(es[0], base + Size(es[0]))] + Numbered(es[1..], base + Size(es[0]))
  }

  function Unnumbered(es: seq<Entry>): seq<Item> {
    seq(|es|, i requires 0 <= i < |es| => Item(es[i], 0))
  }

  lemma {:induction false} FillUnnumbered(es: seq<Entry>, bytes: seq<Byte>, filled: bool, needlen: nat)
    ensures FillAll(Filling(bytes, filled, false), Unnumbered(es), needlen)
         == Filling(bytes + Records(Numbered(es, |bytes|)), filled, false)
    decreases |es|
  {
    hide Size, Record;
    if es == [] {
      assert bytes + [] == bytes;
    } else {
      var e := es[0];
      var r := Record(e, |bytes| + Size(e));
      assert Unnumbered(es)[1..] == Unnumbered(es[1..]);
      RecordLength(e, |bytes| + Size(e));
      FillUnnumbered(es[1..], bytes + r, filled, needlen);
      var items := Numbered(es, |bytes|);
      assert items[1..] == Numbered(es[1..], |bytes + r|);
      assert bytes + (r + Records(items[1..])) == (bytes + r) + Records(items[1..]);
    }
  }

  lemma RecordLength(e: Entry, off: nat)
    ensures |Record(e, off)| == Size(e)
  {
  }

  lemma {:induction false} NumberedOffsets(es: seq<Entry>, base: nat, i: nat)
    requires i < |es|
    ensures Numbered(es, base)[i].off == base + |Records(Numbered(es, base)[..i + 1])|
    decreases i
  {
    hide Size, Record;
    var items := Numbered(es, base);
    var b := base + Size(es[0]);
    RecordLength(es[0], b);
    assert items[1..] == Numbered(es[1..], b);
    assert items[..i + 1] == [items[0]] + items[1..][..i];
    assert items[..i + 1][1..] == items[1..][..i];
    if i == 0 {
      assert Records(items[1..][..0]) == [];
    } else {
      NumberedOffsets(es[1..], b, i - 1);
    }
  }

  // In a complete listing, the offset of each record is the byte position where the next one starts.
  lemma {:induction false} CookieIsPosition(es: seq<Entry>, i: nat)
    requires i <= |es|
    ensures Cookie(Numbered(es, 0), i) == |Records(Numbered(es, 0)[..i])|
    ensures Cookie(Numbered(es, 0), i) <= |Records(Numbered(es, 0))|
    ensures Records(Numbered(es, 0))[Cookie(Numbered(es, 0), i)..] == Records(Numbered(es, 0)[i..])
  {
    hide Numbered, Records;
    var items := Numbered(es, 0);
    if i > 0 {
      NumberedOffsets(es, 0, i - 1);
    } else {
      NoRecords(items[..0]);
    }
    RecordsConcat(items[..i], items[i..]);
    assert items[..i] + items[i..] == items;
    BehindFirst(Records(items[..i]), Records(items[i..]));
  }

  lemma NoRecords(items: seq<Item>)
    requires items == []
    ensures Records(items) == []
  {
  }

  lemma BehindFirst(a: seq<Byte>, b: seq<Byte>)
    ensures (a + b)[|a|..] == b
  {
  }

  ghost predicate Entriable(es: seq<Entry>) {
    (forall i :: 0 <= i < |es| ==> Plain(es[i])) && |Records(Numbered(es, 0))| < U32
  }

  lemma {:induction false} NumberedPlain(es: seq<Entry>)
    requires Entriable(es)
    ensures AllPlain(Numbered(es, 0))
  {
    hide Numbered, Records;
    forall i | 0 <= i < |es|
      ensures Numbered(es, 0)[i].off < U64
    {
      CookieIsPosition(es, i + 1);
    }
  }

  function Complete(es: seq<Entry>): Filling {
    Filling(Records(Numbered(es, 0)), true, false)
  }

  // A listing filled without offsets serves its records.
  lemma {:induction false} ListingServes(es: seq<Entry>)
    requires Entriable(es)
    ensures Serves((off, size) => Reply(Complete(es), off, size), Numbered(es, 0))
  {
    hide Numbered, Records, Parse, Fit, AllPlain;
    NumberedPlain(es);
    var items := Numbered(es, 0);
    forall i, size: nat | 0 <= i <= |items|
      ensures Parse(Reply(Complete(es), Cookie(items, i), size)) == items[i..][..Fit(items[i..], size)]
    {
      CookieIsPosition(es, i);
      ParseTail(items, i, size);
      assert Cut([], size) == [];
    }
  }

  lemma {:induction false} ParseTail(items: seq<Item>, i: nat, size: nat)
    requires i <= |items| && AllPlain(items)
    ensures Parse(Cut(Records(items[i..]), size)) == items[i..][..Fit(items[i..], size)]
  {
    ParsePrefix(items[i..], size);
  }

  // Entries with offsets: as many as fit into the request.
  lemma {:induction false} FillNumbered(items: seq<Item>, bytes: seq<Byte>, filled: bool, needlen: nat)
    requires |bytes| <= needlen && forall i :: 0 <= i < |items| ==> items[i].off != 0
    ensures FillAll(Filling(bytes, filled, false), items, needlen).bytes ==
      bytes + Records(items[..Fit(items, needlen - |bytes|)])
    ensures FillAll(Filling(bytes, filled, false), items, needlen).filled <==> filled && items == []
    decreases |items|
  {
    hide Size, Record;
    if items == [] || |bytes| + Size(items[0].entry) > needlen {
      assert Records(items[..0]) == [];
      assert bytes + [] == bytes;
      if items != [] {
        FillStopped(Filling(bytes, false, true), items[1..], needlen);
      }
    } else {
      var it := items[0];
      var r := Record(it.entry, it.off);
      RecordLength(it.entry, it.off);
      FillNumbered(items[1..], bytes + r, false, needlen);
      var k := Fit(items[1..], needlen - |bytes + r|);
      assert items[..k + 1][1..] == items[1..][..k];
      assert bytes + (r + Records(items[1..][..k])) == (bytes + r) + Records(items[1..][..k]);
    }
  }

  lemma {:induction false} FillStopped(st: Filling, items: seq<Item>, needlen: nat)
    requires st.stopped
    ensures FillAll(st, items, needlen) == st
  {
  }

  // The entries a file system with its own offsets lists when asked to go on from `off`.
  function After(items: seq<Item>, off: nat): seq<Item>
    decreases |items|
  {
    if off == 0 || items == [] then items
    else if items[0].off == off then items[1..]
    else After(items[1..], off)
  }

  ghost predicate DistinctOffsets(items: seq<Item>) {
    (forall i :: 0 <= i < |items| ==> items[i].off != 0) &&
      (forall i, j :: 0 <= i < j < |items| ==> items[i].off != items[j].off)
  }

  lemma {:induction false} AfterCookie(items: seq<Item>, i: nat)
    requires DistinctOffsets(items) && i <= |items|
    ensures After(items, Cookie(items, i)) == items[i..]
    decreases |items|
  {
    if i > 0 {
      if i > 1 {
        assert items[0].off != items[i - 1].off;
        assert forall k :: 0 <= k < |items| - 1 ==> items[1..][k] == items[k + 1];
        AfterCookie(items[1..], i - 1);
        assert items[1..][i - 1..] == items[i..];
      }
    }
  }

  // A listing filled with the file system's own offsets serves its records.
  lemma {:induction false} OffsetsServe(items: seq<Item>)
    requires AllPlain(items) && DistinctOffsets(items)
    ensures Serves((off, size) => Reply(FillAll(Fresh(), After(items, off), size), off, size), items)
  {
    hide Parse, Fit, AllPlain, FillAll, After, Records;
    forall i, size: nat | 0 <= i <= |items|
      ensures Parse(Reply(FillAll(Fresh(), After(items, Cookie(items, i)), size), Cookie(items, i), size))
           == items[i..][..Fit(items[i..], size)]
    {
      AfterCookie(items, i);
      var tail := items[i..];
      FillNumbered(tail, [], true, size);
      PlainTail(items, i);
      ParseFitting(tail, size);
      assert [] + Records(tail[..Fit(tail, size)]) == Records(tail[..Fit(tail, size)]);
      if i == |items| {
        EmptyTail(tail, size);
      }
    }
  }

  lemma {:induction false} EmptyTail(tail: seq<Item>, size: nat)
    requires tail == []
    ensures Fit(tail, size) == 0 && Records(tail[..0]) == [] && Parse([]) == []
  {
  }

  lemma {:induction false} ParseFitting(items: seq<Item>, size: nat)
    requires AllPlain(items)
    ensures Parse(Records(items[..Fit(items, size)])) == items[..Fit(items, size)]
  {
    hide Parse, Records, AllPlain;
    var k := Fit(items, size);
    RecordsPrefix(items, size);
    assert items == items[..k] + items[k..];
    RecordsConcat(items[..k], items[k..]);
    PlainPrefix(items, k);
    ParseWhole(items[..k]);
  }

  lemma PlainTail(items: seq<Item>, k: nat)
    requires AllPlain(items) && k <= |items|
    ensures AllPlain(items[k..])
  {
  }

  lemma PlainPrefix(items: seq<Item>, k: nat)
    requires AllPlain(items) && k <= |items|
    ensures AllPlain(items[..k])
  {
  }

  lemma {:induction false} ParseWhole(items: seq<Item>)
    requires AllPlain(items)
    ensures Parse(Records(items)) == items
    decreases |items|
  {
    hide Record, Plain, Parse;
    if items == [] {
      ParseNothing();
    } else {
      ParseWhole(items[1..]);
      ParseRecord(items[0].entry, items[0].off, Records(items[1..]));
    }
  }

  lemma ParseNothing()
    ensures Parse([]) == []
  {
  }

  // A complete listing shows every entry once and in order, for requests no smaller than the largest record.
  lemma {:induction false} ListingSeenOnce(es: seq<Entry>, sizes: seq<nat>, needlen: nat)
    requires Entriable(es) && |sizes| >= |es| && forall k :: 0 <= k < |sizes| ==> AllFit(Numbered(es, 0), sizes[k])
    ensures FillAll(Fresh(), Unnumbered(es), needlen) == Complete(es)
    ensures Session((off, size) => Reply(Complete(es), off, size), 0, sizes) == es
  {
    hide Numbered, Records, Session, Serves, FillAll;
    FillUnnumbered(es, [], true, needlen);
    assert [] + Records(Numbered(es, 0)) == Records(Numbered(es, 0));
    ListingServes(es);
    EveryEntryOnce((off, size) => Reply(Complete(es), off, size), Numbered(es, 0), sizes);
    assert Entries(Numbered(es, 0)) == es;
  }

  // So does a file system that keeps its own offsets.
  lemma {:induction false} OffsetsSeenOnce(items: seq<Item>, sizes: seq<nat>)
    requires AllPlain(items) && DistinctOffsets(items)
    requires |sizes| >= |items| && forall k :: 0 <= k < |sizes| ==> AllFit(items, sizes[k])
    ensures Session((off, size) => Reply(FillAll(Fresh(), After(items, off), size), off, size), 0, sizes) ==
      Entries(items)
  {
    hide Session, Serves, FillAll, After;
    OffsetsServe(items);
    EveryEntryOnce((off, size) => Reply(FillAll(Fresh(), After(items, off), size), off, size), items, sizes);
  }
}
