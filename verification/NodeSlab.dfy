/** The page-wise allocator of node memory (`alloc_node`, `free_node_mem`).  A slab is one page, named by its
    address; its header holds a list of free slots and the number of slots in use. */
module NodeSlab {
  import opened Common

  // The sizes of a page, of a slab's header and of a node.  A page has room for at least one node.
  datatype Layout = Layout(pageSize: nat, header: nat, nodeSize: nat) {
    predicate Fits() {
      0 < nodeSize && header + nodeSize <= pageSize
    }
  }

  // How many nodes a page holds, and where they begin: they end with the page.
  function Num(l: Layout): nat
    requires l.Fits()
  {
    (l.pageSize - l.header) / l.nodeSize
  }

  function Offset(l: Layout, i: nat): nat {
    i * l.nodeSize
  }

  lemma NumFits(l: Layout)
    requires l.Fits()
    ensures 0 < Num(l) && l.header + Offset(l, Num(l)) <= l.pageSize
  {
    var space := l.pageSize - l.header;
    assert space == l.nodeSize * (space / l.nodeSize) + space % l.nodeSize;
    assert l.nodeSize * (space / l.nodeSize) == Offset(l, Num(l));
  }

  lemma {:induction false} MultiplesApart(r: int, q: int, n: nat)
    requires r < q
    ensures r * n + n <= q * n
    decreases q - r
  {
    assert (r + 1) * n == r * n + n;
    if r + 1 < q {
      MultiplesApart(r + 1, q, n);
    }
  }

  lemma OffsetGrows(l: Layout, i: nat, j: nat)
    requires i < j
    ensures Offset(l, i) + l.nodeSize <= Offset(l, j)
  {
    MultiplesApart(i, j, l.nodeSize);
  }

  function Start(l: Layout, page: nat): (a: nat)
    requires l.Fits()
  {
    NumFits(l);
    page + l.pageSize - Offset(l, Num(l))
  }

  // The addresses of a page's slots.
  function Slots(l: Layout, page: nat): (s: seq<nat>)
    requires l.Fits()
  {
    seq(Num(l), i requires 0 <= i < Num(l) => Start(l, page) + Offset(l, i))
  }

  // `node_to_slab`: an address rounded down to its page.
  function Page(l: Layout, a: nat): nat
    requires l.Fits()
  {
    a / l.pageSize * l.pageSize
  }

  predicate Aligned(l: Layout, page: nat)
    requires l.Fits()
  {
    Page(l, page) == page
  }

  lemma QuotientUnique(a: nat, q: nat, n: nat)
    requires 0 < n && q * n <= a < q * n + n
    ensures a / n == q
  {
    var r := a / n;
    assert r * n <= a < r * n + n;
    if r < q {
      MultiplesApart(r, q, n);
    } else if q < r {
      MultiplesApart(q, r, n);
    }
  }

  lemma PageOf(l: Layout, page: nat, a: nat)
    requires l.Fits() && Aligned(l, page) && page <= a < page + l.pageSize
    ensures Page(l, a) == page
  {
    QuotientUnique(a, page / l.pageSize, l.pageSize);
  }

  // A slot lies in its page, behind the header, and no slot overlaps another.
  lemma SlotInPage(l: Layout, page: nat, a: nat)
    requires l.Fits() && Aligned(l, page) && a in Slots(l, page)
    ensures page + l.header <= a && a + l.nodeSize <= page + l.pageSize && Page(l, a) == page
  {
    hide Page, Aligned, Num, Offset;
    NumFits(l);
    var i :| 0 <= i < Num(l) && a == Slots(l, page)[i];
    OffsetGrows(l, i, Num(l));
    PageOf(l, page, a);
  }

  lemma SlotsApart(l: Layout, page: nat, a: nat, b: nat)
    requires l.Fits() && a in Slots(l, page) && b in Slots(l, page) && a != b
    ensures a + l.nodeSize <= b || b + l.nodeSize <= a
  {
    hide Num, Offset;
    var i :| 0 <= i < Num(l) && a == Slots(l, page)[i];
    var j :| 0 <= j < Num(l) && b == Slots(l, page)[j];
    if i < j {
      OffsetGrows(l, i, j);
    } else {
      assert j < i;
      OffsetGrows(l, j, i);
    }
  }

  lemma SlotsDistinct(l: Layout, page: nat)
    requires l.Fits()
    ensures Distinct(Slots(l, page)) && |Slots(l, page)| > 0
  {
    hide Num, Offset;
    NumFits(l);
    forall i, j | 0 <= i < j < |Slots(l, page)|
      ensures Slots(l, page)[i] != Slots(l, page)[j]
    {
      OffsetGrows(l, i, j);
    }
  }

  ghost function Elems(s: seq<nat>): set<nat> {
    set x | x in s
  }

  // `list_del`
  function Unlinked(s: seq<nat>, x: nat): seq<nat> {
    if s == [] then []
    else if s[0] == x then s[1..]
    else [s[0]] + Unlinked(s[1..], x)
  }

  lemma {:induction false} UnlinkedElems(s: seq<nat>, x: nat)
    requires Distinct(s)
    ensures Distinct(Unlinked(s, x)) && Elems(Unlinked(s, x)) == Elems(s) - {x}
  {
    if s != [] {
      assert forall i :: 1 <= i < |s| ==> s[i] == s[1..][i - 1];
      assert s == [s[0]] + s[1..];
      assert s[0] !in s[1..];
      if s[0] != x {
        UnlinkedElems(s[1..], x);
        var t := Unlinked(s[1..], x);
        assert s[0] !in Elems(t);
        assert forall y :: y in Unlinked(s, x) <==> y == s[0] || y in Elems(t);
        assert forall y :: y in s <==> y == s[0] || y in Elems(s[1..]);
      }
    }
  }

  // A slab's free list and counter, given the set of live nodes.
  ghost predicate SlabOk(l: Layout, page: nat, free: seq<nat>, used: nat, live: set<nat>)
    requires l.Fits()
  {
    && Aligned(l, page)
    && Distinct(free)
    && Elems(free) == Elems(Slots(l, page)) - live
    && used == |Elems(Slots(l, page)) * live|
  }

  // Every mapped page is on one of the two lists, once: on the first iff it has a free slot.
  ghost predicate ListsOk(partial: seq<nat>, full: seq<nat>, freelist: map<nat, seq<nat>>) {
    && Distinct(partial) && Distinct(full)
    && (forall p :: p in freelist <==> p in partial || p in full)
    && (forall p :: p in partial ==> p in freelist && freelist[p] != [])
    && (forall p :: p in full ==> p in freelist && freelist[p] == [])
  }

  ghost predicate SlabsOk(l: Layout, freelist: map<nat, seq<nat>>, used: map<nat, nat>, live: set<nat>)
    requires l.Fits()
  {
    && freelist.Keys == used.Keys
    && (forall p :: p in freelist ==> SlabOk(l, p, freelist[p], used[p], live))
  }

  // Every live node is a slot of a mapped page.
  ghost predicate LiveOk(l: Layout, pages: set<nat>, live: set<nat>)
    requires l.Fits()
  {
    forall a :: a in live ==> Page(l, a) in pages && a in Slots(l, Page(l, a))
  }

  // Every mapped page but `idle` has a live node.
  ghost predicate Busy(used: map<nat, nat>, idle: set<nat>) {
    forall p :: p in used && p !in idle ==> used[p] > 0
  }

  lemma TakeSlot(l: Layout, page: nat, free: seq<nat>, used: nat, live: set<nat>)
    requires l.Fits() && SlabOk(l, page, free, used, live) && free != []
    ensures SlabOk(l, page, free[1..], used + 1, live + {free[0]})
    ensures free[0] in Slots(l, page) && free[0] !in live && Page(l, free[0]) == page
  {
    hide Slots, Page, Aligned;
    var a := free[0];
    assert free == [a] + free[1..];
    assert a in Elems(free);
    assert Elems(free[1..]) == Elems(free) - {a};
    assert Elems(Slots(l, page)) * (live + {a}) == Elems(Slots(l, page)) * live + {a};
    SlotInPage(l, page, a);
  }

  lemma GiveSlot(l: Layout, page: nat, free: seq<nat>, used: nat, live: set<nat>, a: nat)
    requires l.Fits() && SlabOk(l, page, free, used, live) && a in live && a in Slots(l, page)
    ensures used > 0 && SlabOk(l, page, [a] + free, used - 1, live - {a})
  {
    hide Slots, Aligned;
    assert a in Elems(Slots(l, page)) * live;
    assert a !in Elems(free);
    assert Elems([a] + free) == Elems(free) + {a};
    assert Elems(Slots(l, page)) * (live - {a}) == Elems(Slots(l, page)) * live - {a};
  }

  // A slot of another page is none of this slab's business.
  lemma OtherSlab(l: Layout, page: nat, free: seq<nat>, used: nat, live: set<nat>, after: set<nat>, a: nat)
    requires l.Fits() && SlabOk(l, page, free, used, live) && Page(l, a) != page
    requires after == live + {a} || after == live - {a}
    ensures SlabOk(l, page, free, used, after)
  {
    hide Slots, Page, Aligned;
    forall x | x in Slots(l, page)
      ensures x != a
    {
      SlotInPage(l, page, x);
    }
    assert a !in Elems(Slots(l, page));
    assert Elems(Slots(l, page)) * after == Elems(Slots(l, page)) * live;
    assert Elems(Slots(l, page)) - after == Elems(Slots(l, page)) - live;
  }

  lemma SlabsChange(l: Layout, freelist: map<nat, seq<nat>>, used: map<nat, nat>, live: set<nat>, p: nat,
      free: seq<nat>, n: nat, after: set<nat>, a: nat)
    requires l.Fits() && SlabsOk(l, freelist, used, live) && Page(l, a) == p && SlabOk(l, p, free, n, after)
    requires after == live + {a} || after == live - {a}
    ensures SlabsOk(l, freelist[p := free], used[p := n], after)
  {
    hide SlabOk, Page;
    forall q | q in freelist && q != p
      ensures SlabOk(l, q, freelist[q], used[q], after)
    {
      OtherSlab(l, q, freelist[q], used[q], live, after, a);
    }
  }

  lemma SlabsDrop(l: Layout, freelist: map<nat, seq<nat>>, used: map<nat, nat>, live: set<nat>, after: set<nat>, a: nat)
    requires l.Fits() && SlabsOk(l, freelist, used, live) && (after == live + {a} || after == live - {a})
    ensures SlabsOk(l, freelist - {Page(l, a)}, used - {Page(l, a)}, after)
  {
    hide SlabOk, Page;
    forall q | q in freelist && q != Page(l, a)
      ensures SlabOk(l, q, freelist[q], used[q], after)
    {
      OtherSlab(l, q, freelist[q], used[q], live, after, a);
    }
  }

  // A page just mapped has all its slots free.
  lemma NewSlab(l: Layout, pages: set<nat>, page: nat, live: set<nat>)
    requires l.Fits() && LiveOk(l, pages, live) && page !in pages && Aligned(l, page)
    ensures Slots(l, page) != [] && SlabOk(l, page, Slots(l, page), 0, live)
  {
    SlotsDistinct(l, page);
    hide Slots, Page, Aligned;
    forall a | a in Slots(l, page)
      ensures a !in live
    {
      SlotInPage(l, page, a);
    }
    assert Elems(Slots(l, page)) * live == {};
  }

  lemma PagesAreLive(l: Layout, freelist: map<nat, seq<nat>>, used: map<nat, nat>, live: set<nat>)
    requires l.Fits() && SlabsOk(l, freelist, used, live) && LiveOk(l, freelist.Keys, live) && Busy(used, {})
    ensures forall p :: p in freelist <==> exists a :: a in live && Page(l, a) == p
  {
    hide Slots, Page, Aligned;
    forall p | p in freelist
      ensures exists a :: a in live && Page(l, a) == p
    {
      assert used[p] > 0 && SlabOk(l, p, freelist[p], used[p], live);
      var a :| a in Elems(Slots(l, p)) * live;
      SlotInPage(l, p, a);
    }
  }

  lemma LiveApart(l: Layout, freelist: map<nat, seq<nat>>, used: map<nat, nat>, live: set<nat>)
    requires l.Fits() && SlabsOk(l, freelist, used, live) && LiveOk(l, freelist.Keys, live)
    ensures forall a :: a in live ==> Page(l, a) + l.header <= a && a + l.nodeSize <= Page(l, a) + l.pageSize
    ensures forall a, b :: a in live && b in live && a != b ==> a + l.nodeSize <= b || b + l.nodeSize <= a
  {
    hide Slots, Page, Aligned, Distinct, Elems;
    forall a | a in live
      ensures Page(l, a) + l.header <= a && a + l.nodeSize <= Page(l, a) + l.pageSize
    {
      assert SlabOk(l, Page(l, a), freelist[Page(l, a)], used[Page(l, a)], live);
      SlotInPage(l, Page(l, a), a);
    }
    forall a, b | a in live && b in live && a != b
      ensures a + l.nodeSize <= b || b + l.nodeSize <= a
    {
      assert SlabOk(l, Page(l, a), freelist[Page(l, a)], used[Page(l, a)], live);
      assert SlabOk(l, Page(l, b), freelist[Page(l, b)], used[Page(l, b)], live);
      PagesApart(l, a, b);
    }
  }

  lemma HasElement(s: seq<nat>)
    ensures s != [] ==> exists x :: x in s
  {
    if s != [] {
      assert s[0] in s;
    }
  }

  lemma NoLists(partial: seq<nat>, full: seq<nat>, freelist: map<nat, seq<nat>>)
    requires ListsOk(partial, full, freelist) && forall p :: p !in freelist
    ensures partial == [] && full == []
  {
    HasElement(partial);
    HasElement(full);
  }

  // The lists when a page is mapped, changes its free list, moves or is unmapped.
  lemma ListsNew(partial: seq<nat>, full: seq<nat>, freelist: map<nat, seq<nat>>, p: nat, free: seq<nat>)
    requires ListsOk(partial, full, freelist) && p !in freelist && free != []
    ensures ListsOk(partial + [p], full, freelist[p := free])
  {
  }

  lemma ListsSame(partial: seq<nat>, full: seq<nat>, freelist: map<nat, seq<nat>>, p: nat, free: seq<nat>)
    requires ListsOk(partial, full, freelist) && p in freelist && (freelist[p] == [] <==> free == [])
    ensures ListsOk(partial, full, freelist[p := free])
  {
  }

  lemma {:induction false} ListsFull(partial: seq<nat>, full: seq<nat>, freelist: map<nat, seq<nat>>, p: nat)
    requires ListsOk(partial, full, freelist) && p in partial
    ensures ListsOk(Unlinked(partial, p), full + [p], freelist[p := []])
  {
    UnlinkedElems(partial, p);
    assert forall q :: q in Unlinked(partial, p) <==> q in Elems(Unlinked(partial, p));
    assert forall q :: q in partial <==> q in Elems(partial);
  }

  lemma {:induction false} ListsPartial(partial: seq<nat>, full: seq<nat>, freelist: map<nat, seq<nat>>, p: nat,
      free: seq<nat>)
    requires ListsOk(partial, full, freelist) && p in full && free != []
    ensures ListsOk(partial + [p], Unlinked(full, p), freelist[p := free])
  {
    UnlinkedElems(full, p);
    assert forall q :: q in Unlinked(full, p) <==> q in Elems(Unlinked(full, p));
    assert forall q :: q in full <==> q in Elems(full);
  }

  lemma {:induction false} ListsGone(partial: seq<nat>, full: seq<nat>, freelist: map<nat, seq<nat>>, p: nat)
    requires ListsOk(partial, full, freelist) && p in freelist
    ensures ListsOk(Unlinked(partial, p), Unlinked(full, p), freelist - {p})
  {
    UnlinkedElems(partial, p);
    UnlinkedElems(full, p);
    assert forall q :: q in Unlinked(partial, p) <==> q in Elems(Unlinked(partial, p));
    assert forall q :: q in Unlinked(full, p) <==> q in Elems(Unlinked(full, p));
    assert forall q :: q in partial <==> q in Elems(partial);
    assert forall q :: q in full <==> q in Elems(full);
  }

  datatype Mapping = Failed | Mapped(page: nat)
  datatype Node = Null | Node(addr: nat)

  class Slabs {
    const l: Layout
    var freelist: map<nat, seq<nat>>
    var used: map<nat, nat>
    var partial: seq<nat>
    var full: seq<nat>
    ghost var live: set<nat>

    ghost predicate Shape(idle: set<nat>)
      reads this
    {
      && l.Fits()
      && ListsOk(partial, full, freelist)
      && SlabsOk(l, freelist, used, live)
      && LiveOk(l, freelist.Keys, live)
      && Busy(used, idle)
    }

    ghost predicate Valid()
      reads this
    {
      Shape({})
    }

    constructor (l: Layout)
      requires l.Fits()
      ensures Valid() && this.l == l && live == {} && freelist == map[]
    {
      this.l := l;
      freelist, used, partial, full, live := map[], map[], [], [], {};
    }

    // What a client may rely on: every mapped page holds a live node, every live node lies inside a mapped
    // page clear of its header, and live nodes do not overlap.
    lemma Guarantees()
      requires Valid()
      ensures freelist.Keys == set a | a in live :: Page(l, a)
      ensures forall a :: a in live ==> Page(l, a) + l.header <= a && a + l.nodeSize <= Page(l, a) + l.pageSize
      ensures forall a, b :: a in live && b in live && a != b ==> a + l.nodeSize <= b || b + l.nodeSize <= a
      ensures live == {} ==> partial == [] && full == []
    {
      hide SlabsOk, ListsOk, LiveOk, Busy, Page;
      assert forall p :: p in freelist <==> exists a :: a in live && Page(l, a) == p by {
        PagesAreLive(l, freelist, used, live);
      }
      LiveApart(l, freelist, used, live);
      if live == {} {
        assert partial == [] && full == [] by { NoLists(partial, full, freelist); }
      }
    }

    // `alloc_slab`; `mem` is what mmap returned.
    method AllocSlab(mem: Mapping) returns (ok: bool)
      requires Valid() && (mem.Mapped? ==> Aligned(l, mem.page) && mem.page !in freelist)
      modifies this
      ensures ok <==> mem.Mapped?
      ensures !ok ==> unchanged(this) && Valid()
      ensures live == old(live) && full == old(full)
      ensures ok ==> Shape({mem.page}) && partial == old(partial) + [mem.page]
                     && freelist == old(freelist)[mem.page := Slots(l, mem.page)] && used == old(used)[mem.page := 0]
    {
      hide SlabOk, ListsOk, Page, Aligned, Slots, Num, Offset, Start;
      if mem.Failed? {
        return false;
      }
      var page := mem.page;
      NewSlab(l, freelist.Keys, page, live);
      ListsNew(partial, full, freelist, page, Slots(l, page));
      var free := FillFreelist(l, page);
      freelist, used := freelist[page := free], used[page := 0];
      partial := partial + [page];
      ok := true;
    }

    // `alloc_node`; `mem` is what mmap returns if it is called.  A page is mapped only when all are full.
    method AllocNode(mem: Mapping) returns (node: Node)
      requires Valid() && (mem.Mapped? ==> Aligned(l, mem.page) && mem.page !in freelist)
      modifies this
      ensures Valid()
      ensures node.Null? <==> old(partial) == [] && mem.Failed?
      ensures node.Null? ==> unchanged(this)
      ensures node.Node? ==> node.addr !in old(live) && live == old(live) + {node.addr}
      ensures node.Node? ==> Page(l, node.addr) == if old(partial) != [] then old(partial)[0] else mem.page
      ensures node.Node? ==> freelist.Keys == old(freelist.Keys) + {Page(l, node.addr)}
      ensures node.Node? && old(partial) != [] ==>
        freelist[Page(l, node.addr)] == old(freelist[partial[0]])[1..] && node.addr == old(freelist[partial[0]])[0]
    {
      hide SlabOk, SlabsOk, LiveOk, Busy, Page, Aligned, Slots;
      assert partial != [] ==> partial[0] in partial;
      if partial == [] {
        var ok := AllocSlab(mem);
        if !ok {
          return Null;
        }
        assert partial[0] in partial;
      }
      node := Take(if old(partial) == [] then {mem.page} else {});
    }

    // The rest of `alloc_node`: the first free slot of the first page that has one.
    method Take(ghost idle: set<nat>) returns (node: Node)
      requires Shape(idle) && partial != [] && idle <= {partial[0]}
      modifies this
      ensures Valid() && node.Node?
      ensures old(partial)[0] in old(freelist) && old(freelist[partial[0]]) != [] &&
        node.addr == old(freelist[partial[0]])[0]
      ensures node.addr !in old(live) && live == old(live) + {node.addr} && Page(l, node.addr) == old(partial)[0]
      ensures freelist == old(freelist)[old(partial)[0] := old(freelist[partial[0]])[1..]]
    {
      hide SlabOk, Page, Aligned, Slots;
      assert partial[0] in partial;
      var p := partial[0];
      assert SlabOk(l, p, freelist[p], used[p], live);
      TakeSlot(l, p, freelist[p], used[p], live);
      used := used[p := used[p] + 1];
      var free := freelist[p];
      SlabsChange(l, freelist, old(used), live, p, free[1..], used[p], live + {free[0]}, free[0]);
      if free[1..] == [] {
        ListsFull(partial, full, freelist, p);
        assert Unlinked(partial, p) == partial[1..];
        partial, full := partial[1..], full + [p];
      } else {
        ListsSame(partial, full, freelist, p, free[1..]);
      }
      freelist := freelist[p := free[1..]];
      node := Node(free[0]);
      live := live + {free[0]};
    }

    // `free_node_mem`: the page goes when its last live node does, and only then.
    method FreeNode(node: nat)
      requires Valid() && node in live
      modifies this
      ensures Valid() && live == old(live) - {node}
      ensures (exists a :: a in live && Page(l, a) == Page(l, node)) ==>
        freelist.Keys == old(freelist.Keys) && freelist[Page(l, node)] == [node] + old(freelist)[Page(l, node)]
      ensures !(exists a :: a in live && Page(l, a) == Page(l, node)) ==>
        freelist.Keys == old(freelist.Keys) - {Page(l, node)}
    {
      hide SlabOk, Page, Aligned, Slots, ListsOk;
      var p := Page(l, node);
      assert SlabOk(l, p, freelist[p], used[p], live);
      GiveSlot(l, p, freelist[p], used[p], live, node);
      if used[p] - 1 > 0 {
        Return(node, p);
      } else {
        // `free_slab`
        SlabsDrop(l, freelist, used, live, live - {node}, node);
        ListsGone(partial, full, freelist, p);
        LastOfPage(l, freelist.Keys, p, [node] + freelist[p], live - {node});
        partial, full := Unlinked(partial, p), Unlinked(full, p);
        freelist, used := freelist - {p}, used - {p};
        live := live - {node};
        assert Busy(used, {});
      }
      PagesAreLive(l, freelist, used, live);
    }

    // The branch of `free_node_mem` that keeps the page.
    method Return(node: nat, p: nat)
      requires Valid() && node in live && p == Page(l, node) && p in freelist && p in used && used[p] > 1
      modifies this
      ensures Valid() && live == old(live) - {node}
      ensures freelist == old(freelist)[p := [node] + old(freelist)[p]]
    {
      hide SlabOk, Page, Aligned, Slots;
      assert SlabOk(l, p, freelist[p], used[p], live);
      GiveSlot(l, p, freelist[p], used[p], live, node);
      SlabsChange(l, freelist, used, live, p, [node] + freelist[p], used[p] - 1, live - {node}, node);
      used := used[p := used[p] - 1];
      if freelist[p] == [] {
        ListsPartial(partial, full, freelist, p, [node] + freelist[p]);
        full := Unlinked(full, p);
        partial := partial + [p];
      } else {
        ListsSame(partial, full, freelist, p, [node] + freelist[p]);
      }
      freelist := freelist[p := [node] + freelist[p]];
      live := live - {node};
    }

    // The end of `fuse_destroy`: with every node freed, in any order, both lists are empty.
    method FreeAll(nodes: seq<nat>)
      requires Valid() && Distinct(nodes) && live == Elems(nodes)
      modifies this
      ensures Valid() && live == {} && partial == [] && full == [] && freelist == map[]
    {
      hide Shape, Page;
      for i := 0 to |nodes|
        invariant Valid() && live == set k | i <= k < |nodes| :: nodes[k]
      {
        FreeNode(nodes[i]);
      }
      Guarantees();
    }
  }

  lemma LastOfPage(l: Layout, pages: set<nat>, p: nat, free: seq<nat>, live: set<nat>)
    requires l.Fits() && SlabOk(l, p, free, 0, live)
    requires forall a :: a in live ==> Page(l, a) in pages && a in Slots(l, Page(l, a))
    ensures LiveOk(l, pages - {p}, live)
  {
    hide Page, Slots, Aligned;
    assert forall a :: a in Slots(l, p) && a in live ==> a in Elems(Slots(l, p)) * live;
  }

  // The loop of `alloc_slab` that threads the slots together.
  method FillFreelist(l: Layout, page: nat) returns (free: seq<nat>)
    requires l.Fits()
    ensures free == Slots(l, page)
  {
    var num, start := Num(l), Start(l, page);
    hide Num, Offset, Start;
    SlotsShape(l, page);
    free := [];
    for i := 0 to num
      invariant free == Slots(l, page)[..i]
    {
      free := free + [start + Offset(l, i)];
      assert Slots(l, page)[..i + 1] == Slots(l, page)[..i] + [Slots(l, page)[i]];
    }
    assert Slots(l, page)[..num] == Slots(l, page);
  }

  lemma SlotsShape(l: Layout, page: nat)
    requires l.Fits()
    ensures |Slots(l, page)| == Num(l)
    ensures forall i :: 0 <= i < Num(l) ==> Slots(l, page)[i] == Start(l, page) + Offset(l, i)
  {
  }

  lemma PagesApart(l: Layout, a: nat, b: nat)
    requires l.Fits() && a in Slots(l, Page(l, a)) && b in Slots(l, Page(l, b)) && a != b
    requires Aligned(l, Page(l, a)) && Aligned(l, Page(l, b))
    ensures a + l.nodeSize <= b || b + l.nodeSize <= a
  {
    var p, q := Page(l, a), Page(l, b);
    hide Slots, Page, Aligned;
    if p == q {
      SlotsApart(l, p, a, b);
    } else {
      SlotInPage(l, p, a);
      SlotInPage(l, q, b);
      if p < q {
        AlignedApart(l, p, q);
      } else {
        AlignedApart(l, q, p);
      }
    }
  }

  lemma AlignedApart(l: Layout, p: nat, q: nat)
    requires l.Fits() && Aligned(l, p) && Aligned(l, q) && p < q
    ensures p + l.pageSize <= q
  {
    hide Aligned, Page;
    if q < p + l.pageSize {
      PageOf(l, p, q);
      assert Page(l, q) == q by { AlignedPage(l, q); }
    }
  }

  lemma AlignedPage(l: Layout, q: nat)
    requires l.Fits() && Aligned(l, q)
    ensures Page(l, q) == q
  {
  }
}
