/** The frequency-based-replacement (FBR) buffer cache: one chain of blocks from most to least recently used,
    cut into a new, a middle and an old section, and a map from block ids into the chain. */
module FbrCache {
  import opened Common

  datatype Section = NewSection | MiddleSection | OldSection

  datatype BlockID = BlockID(fileId: int, blockNumber: int)

  const NULL_ID: BlockID := BlockID(-1, -1)

  // A block without its section tag.
  datatype Entry = Entry(id: BlockID, refCount: nat, buff: seq<Byte>)

  const NULL_ENTRY: Entry := Entry(NULL_ID, 1, [])

  datatype Block = Block(entry: Entry, section: Section)

  // A cell of the chain; iterators into the chain are cell addresses.
  datatype Cell = Cell(addr: nat, block: Block)

  predicate Real(e: Entry) {
    e.id.blockNumber != -1
  }

  // ------------------------------------------------------------------ the policy, on entries alone

  function Find(s: seq<Entry>, id: BlockID): (r: Option<nat>)
    ensures r.Some? ==> r.value < |s| && s[r.value].id == id && forall j :: 0 <= j < r.value ==> s[j].id != id
    ensures r.None? <==> forall j :: 0 <= j < |s| ==> s[j].id != id
  {
    if s == [] then None
    else if s[0].id == id then Some(0)
    else
      var r := Find(s[1..], id);
      if r.None? then
        assert forall j :: 0 < j < |s| ==> s[j].id == s[1..][j - 1].id;
        None
      else Some(r.value + 1)
  }

  // A hit moves the entry to the head, and counts unless it was found in the new section.
  function Hit(s: seq<Entry>, newSize: nat, p: nat): seq<Entry>
    requires p < |s|
  {
    [if p < newSize then s[p] else s[p].(refCount := s[p].refCount + 1)] + Without(s, p)
  }

  // `v` is the entry nearest the tail among those with the least count from `from` on.
  predicate Victim(s: seq<Entry>, from: nat, v: nat) {
    && from <= v < |s|
    && (forall j :: from <= j < |s| ==> s[v].refCount <= s[j].refCount)
    && (forall j :: v < j < |s| ==> s[v].refCount < s[j].refCount)
  }

  lemma VictimUnique(s: seq<Entry>, from: nat, v: nat, w: nat)
    requires Victim(s, from, v) && Victim(s, from, w)
    ensures v == w
  {
    assert s[v].refCount == s[w].refCount;
  }

  function LastMin(s: seq<Entry>, from: nat): (v: nat)
    requires from < |s|
    ensures Victim(s, from, v)
    decreases |s| - from
  {
    if from == |s| - 1 then from
    else
      var w := LastMin(s, from + 1);
      if s[from].refCount < s[w].refCount then from else w
  }

  // A miss puts a new entry at the head and removes the one at `v`.
  function Miss(s: seq<Entry>, e: Entry, v: nat): seq<Entry>
    requires v < |s|
  {
    [e] + Without(s, v)
  }

  // Admitting a block that is not cached: the tail goes while it is null, the victim once the cache is full.
  function Admit(s: seq<Entry>, oldStart: nat, id: BlockID, buff: seq<Byte>): seq<Entry>
    requires oldStart < |s|
  {
    Miss(s, Entry(id, 1, buff), if Real(s[|s| - 1]) then LastMin(s, oldStart) else |s| - 1)
  }

  // The chain holds the real entries, with distinct ids, followed by null entries.
  ghost predicate WellFormed(s: seq<Entry>) {
    && (forall i, j :: 0 <= i < j < |s| && !Real(s[i]) ==> !Real(s[j]))
    && (forall i, j :: 0 <= i < j < |s| && Real(s[i]) ==> s[i].id != s[j].id)
    && (forall i :: 0 <= i < |s| && !Real(s[i]) ==> s[i] == NULL_ENTRY)
  }

  // ------------------------------------------------------------------ the cache

  ghost function Entries(chain: seq<Cell>): (s: seq<Entry>)
    ensures |s| == |chain| && forall i :: 0 <= i < |s| ==> s[i] == chain[i].block.entry
  {
    seq(|chain|, i requires 0 <= i < |chain| => chain[i].block.entry)
  }

  // Where an iterator points.
  function PositionOf(chain: seq<Cell>, addr: nat): (p: nat)
    requires exists i :: 0 <= i < |chain| && chain[i].addr == addr
    ensures p < |chain| && chain[p].addr == addr
  {
    if chain[0].addr == addr then 0
    else
      assert forall i :: 0 < i < |chain| ==> chain[i] == chain[1..][i - 1];
      PositionOf(chain[1..], addr) + 1
  }

  function SectionAt(newSize: nat, oldStart: nat, i: nat): Section {
    if i < newSize then NewSection else if i < oldStart then MiddleSection else OldSection
  }

  // Every real block is tagged with the section it is in.
  ghost predicate Tagged(chain: seq<Cell>, newSize: nat, oldStart: nat) {
    forall i :: 0 <= i < |chain| && Real(chain[i].block.entry) ==>
      chain[i].block.section == SectionAt(newSize, oldStart, i)
  }

  // The map's keys are exactly the ids of the real blocks, and each is mapped to its block's cell.
  ghost predicate Mapped(chain: seq<Cell>, blocksMap: map<BlockID, nat>) {
    && (forall i :: 0 <= i < |chain| && Real(chain[i].block.entry) ==>
          chain[i].block.entry.id in blocksMap && blocksMap[chain[i].block.entry.id] == chain[i].addr)
    && (forall id :: id in blocksMap ==>
          exists i :: 0 <= i < |chain| && Real(chain[i].block.entry) && chain[i].block.entry.id == id &&
            chain[i].addr == blocksMap[id])
  }

  ghost predicate Addressed(chain: seq<Cell>, next: nat) {
    && (forall i :: 0 <= i < |chain| ==> chain[i].addr < next)
    && (forall i, j :: 0 <= i < j < |chain| ==> chain[i].addr != chain[j].addr)
  }

  function SetSection(chain: seq<Cell>, i: nat, section: Section): seq<Cell>
    requires i < |chain|
  {
    chain[i := chain[i].(block := chain[i].block.(section := section))]
  }

  class CacheManager {
    const newSize: nat
    const oldStart: nat
    const size: nat
    var cacheChain: seq<Cell>
    var blocksMap: map<BlockID, nat>
    var middlePos: nat           // the position of middleSectionIter
    var oldPos: nat              // the position of oldSectionIter
    var nextAddr: nat

    ghost predicate Valid()
      reads this
    {
      && 0 < newSize <= oldStart < size == |cacheChain|
      && middlePos == newSize && oldPos == oldStart
      && Addressed(cacheChain, nextAddr) && WellFormed(Entries(cacheChain))
      && Tagged(cacheChain, newSize, oldStart) && Mapped(cacheChain, blocksMap)
    }

    ghost function View(): seq<Entry>
      reads this
    {
      Entries(cacheChain)
    }

    // The section sizes are those computed from the fractions; `main` checks that neither end section is
    // empty and that they fit.
    constructor (numberOfBlocks: nat, newSectionSize: nat, oldSectionSize: nat)
      requires 1 <= newSectionSize && 1 <= oldSectionSize && newSectionSize + oldSectionSize <= numberOfBlocks
      ensures Valid() && size == numberOfBlocks && newSize == newSectionSize &&
        oldStart == numberOfBlocks - oldSectionSize
      ensures View() == seq(numberOfBlocks, _ => NULL_ENTRY)
    {
      newSize, oldStart, size := newSectionSize, numberOfBlocks - oldSectionSize, numberOfBlocks;
      var chain: seq<Cell> := [];
      for i := 0 to numberOfBlocks
        invariant |chain| == i && Addressed(chain, i)
        invariant forall j :: 0 <= j < i ==> chain[j].block.entry == NULL_ENTRY
      {
        chain := [Cell(i, Block(NULL_ENTRY, NewSection))] + chain;
      }
      cacheChain, blocksMap, nextAddr := chain, map[], numberOfBlocks;
      var i, m, o := 0, 0, 0;
      while i < |chain|
        invariant i <= |chain|
        invariant (newSectionSize < i ==> m == newSectionSize) &&
          (numberOfBlocks - oldSectionSize < i ==> o == numberOfBlocks - oldSectionSize)
      {
        if i == newSectionSize { m := i; }
        if i == numberOfBlocks - oldSectionSize { o := i; }
        i := i + 1;
      }
      middlePos, oldPos := m, o;
    }

    // std::list::push_front and erase: an iterator keeps pointing at its cell, so its position shifts.  The
    // position of an erased cell is taken over by the next one.
    method PushFront(block: Block)
      modifies this`cacheChain, this`nextAddr, this`middlePos, this`oldPos
      ensures cacheChain == [Cell(old(nextAddr), block)] + old(cacheChain) && nextAddr == old(nextAddr) + 1
      ensures middlePos == old(middlePos) + 1 && oldPos == old(oldPos) + 1
    {
      cacheChain := [Cell(nextAddr, block)] + cacheChain;
      nextAddr := nextAddr + 1;
      middlePos, oldPos := middlePos + 1, oldPos + 1;
    }

    method Erase(q: nat)
      requires q < |cacheChain|
      modifies this`cacheChain, this`middlePos, this`oldPos
      ensures cacheChain == Without(old(cacheChain), q)
      ensures middlePos == if q < old(middlePos) then old(middlePos) - 1 else old(middlePos)
      ensures oldPos == if q < old(oldPos) then old(oldPos) - 1 else old(oldPos)
    {
      cacheChain := cacheChain[..q] + cacheChain[q + 1..];
      if q < middlePos { middlePos := middlePos - 1; }
      if q < oldPos { oldPos := oldPos - 1; }
    }

    // Moving a boundary one block towards the head, and tagging the block it now points at.
    method StepMiddle()
      requires 0 < middlePos <= |cacheChain|
      modifies this`cacheChain, this`middlePos
      ensures middlePos == old(middlePos) - 1 && cacheChain == SetSection(old(cacheChain), middlePos, MiddleSection)
    {
      middlePos := middlePos - 1;
      cacheChain := SetSection(cacheChain, middlePos, MiddleSection);
    }

    method StepOld()
      requires 0 < oldPos <= |cacheChain|
      modifies this`cacheChain, this`oldPos
      ensures oldPos == old(oldPos) - 1 && cacheChain == SetSection(old(cacheChain), oldPos, OldSection)
    {
      oldPos := oldPos - 1;
      cacheChain := SetSection(cacheChain, oldPos, OldSection);
    }

    // `findBlock`
    method FindBlock(id: BlockID) returns (found: bool)
      requires Valid()
      modifies this
      ensures Valid()
      ensures found <==> id.blockNumber != -1 && Find(old(View()), id).Some?
      ensures !found ==> View() == old(View()) && id !in blocksMap
      ensures found ==> View() == Hit(old(View()), newSize, Find(old(View()), id).value)
    {
      hide Addressed, WellFormed, Tagged, Mapped, Entries, Find, Hit, PositionOf, Real, Without;
      ghost var before := cacheChain;
      if id !in blocksMap {
        if id.blockNumber != -1 { NotMapped(cacheChain, blocksMap, id); }
        return false;
      }
      MappedSomewhere(cacheChain, blocksMap, id);
      var p := PositionOf(cacheChain, blocksMap[id]);
      MappedPosition(cacheChain, blocksMap, nextAddr, newSize, oldStart, id, p);
      PromotedOk(cacheChain, blocksMap, nextAddr, newSize, oldStart, p);
      var section := cacheChain[p].block.section;
      var block := cacheChain[p].block;
      if section != NewSection {
        block := block.(entry := block.entry.(refCount := block.entry.refCount + 1));
        cacheChain := cacheChain[p := cacheChain[p].(block := block)];
      }
      MoveBounds(section);
      ghost var marked := cacheChain;
      assert marked == Marked(before, p, newSize, oldStart);
      PushFront(block.(section := NewSection));
      blocksMap := blocksMap[id := cacheChain[0].addr];
      Erase(p + 1);
      WithoutSecond(marked, Cell(old(nextAddr), block.(section := NewSection)), p);
      found := true;
    }

    // The boundaries above the section of a block that was hit move up by one.
    method MoveBounds(section: Section)
      requires 0 < middlePos <= oldPos < |cacheChain|
      modifies this`cacheChain, this`middlePos, this`oldPos
      ensures middlePos == old(middlePos) - if section == NewSection then 0 else 1
      ensures oldPos == old(oldPos) - if section == OldSection then 1 else 0
      ensures section == NewSection ==> cacheChain == old(cacheChain)
      ensures section == MiddleSection ==> cacheChain == SetSection(old(cacheChain), middlePos, MiddleSection)
      ensures section == OldSection ==>
        cacheChain == SetSection(SetSection(old(cacheChain), middlePos, MiddleSection), oldPos, OldSection)
    {
      match section {
        case NewSection =>
        case MiddleSection =>
          StepMiddle();
        case OldSection =>
          StepMiddle();
          StepOld();
      }
    }

    // The victim search of `insertBlock`, from the start of the old section to the tail.
    method LeastReferenced() returns (v: nat)
      requires oldPos < |cacheChain|
      ensures Victim(Entries(cacheChain), oldPos, v)
    {
      v := oldPos;
      var minimal := cacheChain[v].block.entry.refCount;
      for i := oldPos to |cacheChain|
        invariant oldPos <= v < |cacheChain| && minimal == cacheChain[v].block.entry.refCount
        invariant v <= i && (i > oldPos ==> v < i)
        invariant forall j :: oldPos <= j < i ==> minimal <= cacheChain[j].block.entry.refCount
        invariant forall j :: v < j < i ==> minimal < cacheChain[j].block.entry.refCount
      {
        if cacheChain[i].block.entry.refCount <= minimal {
          v, minimal := i, cacheChain[i].block.entry.refCount;
        }
      }
    }

    // `insertBlock`.  `exits` is the exit of the program when the block is already cached.
    method InsertBlock(id: BlockID, buff: seq<Byte>) returns (exits: bool)
      requires Valid() && id.blockNumber != -1
      modifies this
      ensures Valid()
      ensures exits <==> Find(old(View()), id).Some?
      ensures !exits ==> View() == Admit(old(View()), oldStart, id, buff)
    {
      hide Addressed, WellFormed, Tagged, Mapped, Find, Hit, Without, Entries, Victim, LastMin;
      var found := FindBlock(id);
      if found {
        return true;
      }
      ghost var before, map0, addr := cacheChain, blocksMap, nextAddr;
      var e := Entry(id, 1, buff);
      PushFront(Block(e, NewSection));
      blocksMap := blocksMap[id := cacheChain[0].addr];
      ghost var v := MakeRoom(before, map0, Cell(addr, Block(e, NewSection)));
      InsertedOk(before, map0, addr, newSize, oldStart, v, e);
      StepMiddle();
      StepOld();
      if Real(before[size - 1].block.entry) {
        VictimUnique(Entries(before), oldStart, v, LastMin(Entries(before), oldStart));
      }
      exits := false;
    }

    // The eviction of `insertBlock`, with the new block already in front of the chain `before`: the last block
    // if the cache is not full, else the least referenced block of the old section.
    method MakeRoom(ghost before: seq<Cell>, ghost map0: map<BlockID, nat>, ghost new_: Cell) returns (ghost v: nat)
      requires |before| == size && newSize <= oldStart < size && WellFormed(Entries(before)) && Mapped(before, map0)
      requires cacheChain == [new_] + before && new_.block.entry.id !in map0
      requires blocksMap == map0[new_.block.entry.id := new_.addr] && middlePos == newSize + 1 && oldPos == oldStart + 1
      modifies this`cacheChain, this`blocksMap, this`middlePos, this`oldPos
      ensures oldStart <= v < size && (!Real(before[v].block.entry) ==> v == size - 1)
      ensures if Real(before[size - 1].block.entry) then Victim(Entries(before), oldStart, v) else v == size - 1
      ensures cacheChain == [new_] + Without(before, v) && middlePos == newSize + 1 && oldPos == oldStart + 1
      ensures blocksMap == (map0 - {before[v].block.entry.id})[new_.block.entry.id := new_.addr]
    {
      hide WellFormed, Mapped, Entries, Without, Victim;
      if !Real(cacheChain[|cacheChain| - 1].block.entry) {
        v := size - 1;
        NullUnmapped(before, map0, v);
        Erase(|cacheChain| - 1);
        WithoutSecond(before, new_, v);
      } else {
        v := DropVictim(before, map0, new_);
      }
    }

    // The least referenced block of the old section goes.
    method DropVictim(ghost before: seq<Cell>, ghost map0: map<BlockID, nat>, ghost new_: Cell) returns (ghost v: nat)
      requires |before| == size && oldStart < size && WellFormed(Entries(before)) && Mapped(before, map0)
      requires cacheChain == [new_] + before && new_.block.entry.id !in map0 && Real(before[size - 1].block.entry)
      requires blocksMap == map0[new_.block.entry.id := new_.addr] && middlePos <= oldPos == oldStart + 1
      modifies this`cacheChain, this`blocksMap, this`middlePos, this`oldPos
      ensures oldStart <= v < size && Real(before[v].block.entry) && Victim(Entries(before), oldStart, v)
      ensures cacheChain == [new_] + Without(before, v) && middlePos == old(middlePos) && oldPos == old(oldPos)
      ensures blocksMap == (map0 - {before[v].block.entry.id})[new_.block.entry.id := new_.addr]
    {
      hide WellFormed, Mapped, Entries, Without, Victim, Real;
      var victim := LeastReferenced();
      VictimShift(before, new_, oldStart, victim);
      v := victim - 1;
      assert cacheChain[victim] == before[v];
      RealMapped(before, map0, v, new_.block.entry.id, new_.addr);
      blocksMap := blocksMap - {cacheChain[victim].block.entry.id};
      Erase(victim);
      WithoutSecond(before, new_, v);
    }

    // `retrieveBuffer`
    method RetrieveBuffer(id: BlockID) returns (r: Option<seq<Byte>>)
      requires Valid() && id.blockNumber != -1
      modifies this
      ensures Valid()
      ensures r.None? <==> Find(old(View()), id).None?
      ensures r.None? ==> View() == old(View())
      ensures r.Some? ==> View() == Hit(old(View()), newSize, Find(old(View()), id).value)
                          && r.value == old(View())[Find(old(View()), id).value].buff
    {
      hide Addressed, WellFormed, Tagged, Mapped;
      ghost var s := View();
      var found := FindBlock(id);
      if !found {
        return None;
      }
      r := Some(cacheChain[0].block.entry.buff);
      assert View()[0] == cacheChain[0].block.entry;
    }
  }

  // ------------------------------------------------------------------ what a hit does to the chain

  function Bumped(chain: seq<Cell>, p: nat, newSize: nat): Block
    requires p < |chain|
  {
    var b := chain[p].block;
    if p < newSize then b else b.(entry := b.entry.(refCount := b.entry.refCount + 1))
  }

  // The chain with the boundaries retagged for a hit at `p`.
  function Marked(chain: seq<Cell>, p: nat, newSize: nat, oldStart: nat): (r: seq<Cell>)
    requires p < |chain| && 0 < newSize <= oldStart < |chain|
    ensures |r| == |chain|
  {
    var c1 := chain[p := chain[p].(block := Bumped(chain, p, newSize))];
    var c2 := if p < newSize then c1 else SetSection(c1, newSize - 1, MiddleSection);
    if p < oldStart then c2 else SetSection(c2, oldStart - 1, OldSection)
  }

  function Promoted(chain: seq<Cell>, p: nat, newSize: nat, oldStart: nat, addr: nat): seq<Cell>
    requires p < |chain| && 0 < newSize <= oldStart < |chain|
  {
    [Cell(addr, Bumped(chain, p, newSize).(section := NewSection))] + Without(Marked(chain, p, newSize, oldStart), p)
  }

  lemma WithoutSecond<T>(s: seq<T>, x: T, p: nat)
    requires p < |s|
    ensures Without([x] + s, p + 1) == [x] + Without(s, p)
  {
  }

  function Retagged(cell: Cell, section: Section): Cell {
    cell.(block := cell.block.(section := section))
  }

  lemma MarkedAt(chain: seq<Cell>, p: nat, newSize: nat, oldStart: nat, i: nat)
    requires p < |chain| && 0 < newSize <= oldStart < |chain| && i < |chain| && i != p
    ensures Marked(chain, p, newSize, oldStart)[i] ==
            Retagged(chain[i], if p >= oldStart && i == oldStart - 1 then OldSection
                               else if p >= newSize && i == newSize - 1 then MiddleSection
                               else chain[i].block.section)
  {
  }

  // The promoted chain, cell by cell.
  lemma PromotedCells(chain: seq<Cell>, p: nat, newSize: nat, oldStart: nat, addr: nat)
    requires p < |chain| && 0 < newSize <= oldStart < |chain|
    ensures var r := Promoted(chain, p, newSize, oldStart, addr);
            && |r| == |chain| && r[0] == Cell(addr, Bumped(chain, p, newSize).(section := NewSection))
            && (forall i :: p < i < |r| ==> r[i] == chain[i])
            && (forall i :: 0 < i <= p ==>
                  r[i] == Retagged(chain[i - 1], if p >= oldStart && i == oldStart then OldSection
                                                 else if p >= newSize && i == newSize then MiddleSection
                                                 else chain[i - 1].block.section))
  {
    hide Marked;
    var r, m := Promoted(chain, p, newSize, oldStart, addr), Marked(chain, p, newSize, oldStart);
    forall i | p < i < |r|
      ensures r[i] == chain[i]
    {
      assert r[i] == m[i];
      MarkedAt(chain, p, newSize, oldStart, i);
    }
    forall i | 0 < i <= p
      ensures r[i] == Retagged(chain[i - 1], if p >= oldStart && i == oldStart then OldSection
                                             else if p >= newSize && i == newSize then MiddleSection
                                             else chain[i - 1].block.section)
    {
      assert r[i] == m[i - 1];
      MarkedAt(chain, p, newSize, oldStart, i - 1);
    }
  }

  lemma PromotedOk(chain: seq<Cell>, blocksMap: map<BlockID, nat>, next: nat, newSize: nat, oldStart: nat, p: nat)
    requires p < |chain| && 0 < newSize <= oldStart < |chain| && Real(chain[p].block.entry)
    requires Addressed(chain, next) && WellFormed(Entries(chain)) && Tagged(chain, newSize, oldStart) &&
      Mapped(chain, blocksMap)
    ensures var r := Promoted(chain, p, newSize, oldStart, next);
            && |r| == |chain| && Addressed(r, next + 1) && Entries(r) == Hit(Entries(chain), newSize, p) &&
              WellFormed(Entries(r))
            && Tagged(r, newSize, oldStart) && Mapped(r, blocksMap[chain[p].block.entry.id := next])
  {
    hide WellFormed, Tagged, Mapped, Addressed, Promoted, Hit, Entries;
    PromotedEntries(chain, next, newSize, oldStart, p);
    HitWellFormed(Entries(chain), newSize, p);
    PromotedTagged(chain, next, newSize, oldStart, p);
    PromotedMapped(chain, blocksMap, next, newSize, oldStart, p);
  }

  lemma PromotedEntries(chain: seq<Cell>, next: nat, newSize: nat, oldStart: nat, p: nat)
    requires p < |chain| && 0 < newSize <= oldStart < |chain| && Addressed(chain, next)
    ensures var r := Promoted(chain, p, newSize, oldStart, next);
            |r| == |chain| && Entries(r) == Hit(Entries(chain), newSize, p) && Addressed(r, next + 1)
  {
    hide Promoted;
    PromotedCells(chain, p, newSize, oldStart, next);
    var r := Promoted(chain, p, newSize, oldStart, next);
    assert Entries(r) == Hit(Entries(chain), newSize, p);
  }

  lemma PromotedTagged(chain: seq<Cell>, next: nat, newSize: nat, oldStart: nat, p: nat)
    requires p < |chain| && 0 < newSize <= oldStart < |chain| && Tagged(chain, newSize, oldStart)
    ensures Tagged(Promoted(chain, p, newSize, oldStart, next), newSize, oldStart)
  {
    hide Promoted;
    PromotedCells(chain, p, newSize, oldStart, next);
    var r := Promoted(chain, p, newSize, oldStart, next);
    forall i | 0 <= i < |r| && Real(r[i].block.entry)
      ensures r[i].block.section == SectionAt(newSize, oldStart, i)
    {
      if 0 < i <= p { assert r[i].block.entry == chain[i - 1].block.entry; }
    }
  }

  lemma PromotedMapped(chain: seq<Cell>, blocksMap: map<BlockID, nat>, next: nat, newSize: nat, oldStart: nat, p: nat)
    requires p < |chain| && 0 < newSize <= oldStart < |chain| && Real(chain[p].block.entry)
    requires WellFormed(Entries(chain)) && Mapped(chain, blocksMap)
    ensures Mapped(Promoted(chain, p, newSize, oldStart, next), blocksMap[chain[p].block.entry.id := next])
  {
    hide Promoted, WellFormed;
    var r, id := Promoted(chain, p, newSize, oldStart, next), chain[p].block.entry.id;
    var m := blocksMap[id := next];
    OthersDiffer(chain, p);
    PromotedCells(chain, p, newSize, oldStart, next);
    forall i | 0 <= i < |r| && Real(r[i].block.entry)
      ensures r[i].block.entry.id in m && m[r[i].block.entry.id] == r[i].addr
    {
      if i > 0 {
        var j := if i <= p then i - 1 else i;
        assert r[i].block.entry == chain[j].block.entry && r[i].addr == chain[j].addr;
      }
    }
    forall k | k in m
      ensures exists i :: 0 <= i < |r| && Real(r[i].block.entry) && r[i].block.entry.id == k && r[i].addr == m[k]
    {
      if k == id {
        assert r[0].block.entry.id == k;
      } else {
        var i :| 0 <= i < |chain| && Real(chain[i].block.entry) && chain[i].block.entry.id == k &&
          chain[i].addr == blocksMap[k];
        assert r[if i < p then i + 1 else i].block.entry.id == k;
      }
    }
  }

  lemma HitWellFormed(s: seq<Entry>, newSize: nat, p: nat)
    requires WellFormed(s) && p < |s| && Real(s[p])
    ensures WellFormed(Hit(s, newSize, p))
  {
    var r := Hit(s, newSize, p);
    assert forall i :: 0 < i < |r| ==> r[i] == s[if i <= p then i - 1 else i];
  }

  lemma MappedSomewhere(chain: seq<Cell>, blocksMap: map<BlockID, nat>, id: BlockID)
    requires Mapped(chain, blocksMap) && id in blocksMap
    ensures exists i :: 0 <= i < |chain| && chain[i].addr == blocksMap[id]
  {
  }

  lemma {:induction false} NotMapped(chain: seq<Cell>, blocksMap: map<BlockID, nat>, id: BlockID)
    requires Mapped(chain, blocksMap) && id !in blocksMap && id.blockNumber != -1
    ensures Find(Entries(chain), id).None?
  {
  }

  // The iterator stored for an id points at the block with that id, which is the only one.
  lemma {:induction false} MappedPosition(chain: seq<Cell>, blocksMap: map<BlockID, nat>, next: nat, newSize: nat,
      oldStart: nat,
      id: BlockID, p: nat)
    requires Mapped(chain, blocksMap) && Addressed(chain, next) && WellFormed(Entries(chain)) &&
      Tagged(chain, newSize, oldStart)
    requires id in blocksMap && p < |chain| && chain[p].addr == blocksMap[id]
    ensures id.blockNumber != -1 && chain[p].block.entry.id == id && Real(chain[p].block.entry)
    ensures Find(Entries(chain), id) == Some(p)
    ensures chain[p].block.section == SectionAt(newSize, oldStart, p)
  {
    var i :| 0 <= i < |chain| && Real(chain[i].block.entry) && chain[i].block.entry.id == id &&
      chain[i].addr == blocksMap[id];
    assert i == p;
  }

  // ------------------------------------------------------------------ what a miss does to the chain

  function Inserted(chain: seq<Cell>, v: nat, newSize: nat, oldStart: nat, addr: nat, e: Entry): seq<Cell>
    requires v < |chain| && 0 < newSize <= oldStart < |chain|
  {
    var c1 := [Cell(addr, Block(e, NewSection))] + Without(chain, v);
    var c2 := SetSection(c1, newSize, MiddleSection);
    SetSection(c2, oldStart, OldSection)
  }

  lemma InsertedCells(chain: seq<Cell>, v: nat, newSize: nat, oldStart: nat, addr: nat, e: Entry)
    requires v < |chain| && 0 < newSize <= oldStart <= v
    ensures var r := Inserted(chain, v, newSize, oldStart, addr, e);
            && |r| == |chain| && r[0] == Cell(addr, Block(e, NewSection))
            && (forall i :: v < i < |r| ==> r[i] == chain[i])
            && (forall i :: 0 < i <= v ==>
                  r[i] == Retagged(chain[i - 1], if i == oldStart then OldSection
                                                 else if i == newSize then MiddleSection
                                                 else chain[i - 1].block.section))
  {
  }

  // `v` is the last cell, a null block, or a real block of the old section.
  lemma InsertedOk(chain: seq<Cell>, blocksMap: map<BlockID, nat>, next: nat, newSize: nat, oldStart: nat, v: nat,
      e: Entry)
    requires v < |chain| && 0 < newSize <= oldStart <= v && Real(e) && e.id !in blocksMap
    requires !Real(chain[v].block.entry) ==> v == |chain| - 1
    requires Addressed(chain, next) && WellFormed(Entries(chain)) && Tagged(chain, newSize, oldStart) &&
      Mapped(chain, blocksMap)
    ensures var r := Inserted(chain, v, newSize, oldStart, next, e);
            && |r| == |chain| && Addressed(r, next + 1) && Entries(r) == Miss(Entries(chain), e, v) &&
              WellFormed(Entries(r))
            && Tagged(r, newSize, oldStart)
            && Mapped(r, (blocksMap - {chain[v].block.entry.id})[e.id := next])
  {
    hide WellFormed, Tagged, Mapped, Addressed, Inserted, Miss, Entries;
    InsertedEntries(chain, next, newSize, oldStart, v, e);
    UnmappedFresh(chain, blocksMap, e.id);
    MissWellFormed(Entries(chain), v, e);
    InsertedTagged(chain, next, newSize, oldStart, v, e);
    InsertedMapped(chain, blocksMap, next, newSize, oldStart, v, e);
  }

  lemma InsertedEntries(chain: seq<Cell>, next: nat, newSize: nat, oldStart: nat, v: nat, e: Entry)
    requires v < |chain| && 0 < newSize <= oldStart <= v && Addressed(chain, next)
    ensures var r := Inserted(chain, v, newSize, oldStart, next, e);
            |r| == |chain| && Entries(r) == Miss(Entries(chain), e, v) && Addressed(r, next + 1)
  {
    hide Inserted;
    InsertedCells(chain, v, newSize, oldStart, next, e);
    var r := Inserted(chain, v, newSize, oldStart, next, e);
    assert Entries(r) == Miss(Entries(chain), e, v);
  }

  lemma InsertedTagged(chain: seq<Cell>, next: nat, newSize: nat, oldStart: nat, v: nat, e: Entry)
    requires v < |chain| && 0 < newSize <= oldStart <= v && Tagged(chain, newSize, oldStart)
    ensures Tagged(Inserted(chain, v, newSize, oldStart, next, e), newSize, oldStart)
  {
    hide Inserted;
    InsertedCells(chain, v, newSize, oldStart, next, e);
    var r := Inserted(chain, v, newSize, oldStart, next, e);
    forall i | 0 <= i < |r| && Real(r[i].block.entry)
      ensures r[i].block.section == SectionAt(newSize, oldStart, i)
    {
      if 0 < i <= v { assert r[i].block.entry == chain[i - 1].block.entry; }
    }
  }

  lemma MissWellFormed(s: seq<Entry>, v: nat, e: Entry)
    requires v < |s| && WellFormed(s) && Real(e) && forall i :: 0 <= i < |s| ==> s[i].id != e.id
    requires !Real(s[v]) ==> v == |s| - 1
    ensures WellFormed(Miss(s, e, v))
  {
    var r := Miss(s, e, v);
    assert forall i :: 0 < i < |r| ==> r[i] == s[if i <= v then i - 1 else i];
  }

  lemma UnmappedFresh(chain: seq<Cell>, blocksMap: map<BlockID, nat>, id: BlockID)
    requires Mapped(chain, blocksMap) && id !in blocksMap && id.blockNumber != -1
    ensures forall i :: 0 <= i < |chain| ==> Entries(chain)[i].id != id
  {
    assert forall i :: 0 <= i < |chain| ==> Entries(chain)[i] == chain[i].block.entry;
  }

  lemma OthersDiffer(chain: seq<Cell>, v: nat)
    requires v < |chain| && WellFormed(Entries(chain))
    ensures forall i :: 0 <= i < |chain| && i != v && Real(chain[i].block.entry) ==>
              chain[i].block.entry.id != chain[v].block.entry.id
  {
    assert forall i :: 0 <= i < |chain| ==> Entries(chain)[i] == chain[i].block.entry;
  }

  lemma InsertedMapped(chain: seq<Cell>, blocksMap: map<BlockID, nat>, next: nat, newSize: nat, oldStart: nat,
      v: nat, e: Entry)
    requires v < |chain| && 0 < newSize <= oldStart <= v && Real(e) && e.id !in blocksMap
    requires WellFormed(Entries(chain)) && Mapped(chain, blocksMap)
    ensures Mapped(Inserted(chain, v, newSize, oldStart, next, e),
      (blocksMap - {chain[v].block.entry.id})[e.id := next])
  {
    hide Inserted, WellFormed;
    var r, gone := Inserted(chain, v, newSize, oldStart, next, e), chain[v].block.entry.id;
    var m := (blocksMap - {gone})[e.id := next];
    OthersDiffer(chain, v);
    InsertedCells(chain, v, newSize, oldStart, next, e);
    forall i | 0 <= i < |r| && Real(r[i].block.entry)
      ensures r[i].block.entry.id in m && m[r[i].block.entry.id] == r[i].addr
    {
      if i > 0 {
        var j := if i <= v then i - 1 else i;
        assert r[i].block.entry == chain[j].block.entry && r[i].addr == chain[j].addr;
      }
    }
    forall k | k in m
      ensures exists i :: 0 <= i < |r| && Real(r[i].block.entry) && r[i].block.entry.id == k && r[i].addr == m[k]
    {
      if k == e.id {
        assert r[0].block.entry.id == k;
      } else {
        var i :| 0 <= i < |chain| && Real(chain[i].block.entry) && chain[i].block.entry.id == k &&
          chain[i].addr == blocksMap[k];
        assert r[if i < v then i + 1 else i].block.entry.id == k;
      }
    }
  }

  lemma NullUnmapped(chain: seq<Cell>, m: map<BlockID, nat>, v: nat)
    requires v < |chain| && !Real(chain[v].block.entry) && Mapped(chain, m)
    ensures m - {chain[v].block.entry.id} == m
  {
  }

  lemma RealMapped(chain: seq<Cell>, m: map<BlockID, nat>, v: nat, id: BlockID, a: nat)
    requires v < |chain| && Real(chain[v].block.entry) && Mapped(chain, m) && id !in m
    ensures chain[v].block.entry.id != id
    ensures m[id := a] - {chain[v].block.entry.id} == (m - {chain[v].block.entry.id})[id := a]
  {
  }

  // With the new block in front, the old section starts one position later.
  lemma {:induction false} VictimShift(chain: seq<Cell>, first: Cell, oldStart: nat, v: nat)
    requires Victim(Entries([first] + chain), oldStart + 1, v) && WellFormed(Entries(chain))
    requires |chain| > 0 && Real(chain[|chain| - 1].block.entry)
    ensures oldStart < v <= |chain| && Victim(Entries(chain), oldStart, v - 1) && Real(chain[v - 1].block.entry)
  {
    hide WellFormed, Victim;
    var s, t := Entries(chain), Entries([first] + chain);
    assert forall i :: 0 < i < |t| ==> t[i] == s[i - 1];
    VictimBehind(s, t, oldStart, v);
  }

  lemma {:induction false} VictimBehind(s: seq<Entry>, t: seq<Entry>, from: nat, v: nat)
    requires |t| == |s| + 1 && |s| > 0 && forall i :: 0 < i < |t| ==> t[i] == s[i - 1]
    requires Victim(t, from + 1, v) && WellFormed(s) && Real(s[|s| - 1])
    ensures from < v <= |s| && Victim(s, from, v - 1) && Real(s[v - 1])
  {
    assert forall i :: 0 <= i < |s| ==> s[i] == t[i + 1];
  }

  // ------------------------------------------------------------------ whole runs

  // The section sizes and the number of blocks.
  datatype Shape = Shape(size: nat, newSize: nat, oldStart: nat)

  predicate ShapeOk(c: Shape) {
    0 < c.newSize <= c.oldStart < c.size
  }

  // An access to a block; `buff` is what is read from the disk if the block is not cached.
  datatype Access = Access(id: BlockID, buff: seq<Byte>)

  function Step(s: seq<Entry>, c: Shape, a: Access): (s': seq<Entry>)
    requires ShapeOk(c) && |s| == c.size
    ensures |s'| == c.size
  {
    match Find(s, a.id)
    case Some(p) => Hit(s, c.newSize, p)
    case None => Admit(s, c.oldStart, a.id, a.buff)
  }

  function Run(c: Shape, h: seq<Access>): (s: seq<Entry>)
    requires ShapeOk(c)
    ensures |s| == c.size
  {
    if h == [] then seq(c.size, _ => NULL_ENTRY) else Step(Run(c, h[..|h| - 1]), c, h[|h| - 1])
  }

  // How often `id` has been found outside the new section since it was last admitted.
  function HitsOutside(c: Shape, h: seq<Access>, id: BlockID): nat
    requires ShapeOk(c)
  {
    if h == [] then 0
    else
      var h', a := h[..|h| - 1], h[|h| - 1];
      if a.id != id then HitsOutside(c, h', id)
      else
        match Find(Run(c, h'), id)
        case Some(p) => HitsOutside(c, h', id) + if p < c.newSize then 0 else 1
        case None => 0
  }

  ghost predicate RealAccesses(h: seq<Access>) {
    forall i :: 0 <= i < |h| ==> h[i].id.blockNumber != -1
  }

  ghost predicate Counted(c: Shape, h: seq<Access>, s: seq<Entry>)
    requires ShapeOk(c)
  {
    forall i :: 0 <= i < |s| && Real(s[i]) ==> s[i].refCount == 1 + HitsOutside(c, h, s[i].id)
  }

  // In every reachable state the chain is well formed and a block's count is one more than the hits it has
  // taken outside the new section since its insertion.
  lemma {:induction false} RunSound(c: Shape, h: seq<Access>)
    requires ShapeOk(c) && RealAccesses(h)
    ensures WellFormed(Run(c, h)) && Counted(c, h, Run(c, h))
  {
    hide Run, Counted, Find, LastMin, WellFormed, Hit, Miss;
    if h != [] {
      var h', a := h[..|h| - 1], h[|h| - 1];
      RunSound(c, h');
      RunLast(c, h);
      var s := Run(c, h');
      match Find(s, a.id)
      case Some(p) =>
        HitWellFormed(s, c.newSize, p);
        HitCounted(c, h, s, p);
      case None =>
        var v := if Real(s[|s| - 1]) then LastMin(s, c.oldStart) else |s| - 1;
        if Real(s[|s| - 1]) { FullAll(s, v); }
        MissWellFormed(s, v, Entry(a.id, 1, a.buff));
        MissCounted(c, h, s, v);
    } else {
      RunEmpty(c, h);
    }
  }

  lemma {:induction false} RunLast(c: Shape, h: seq<Access>)
    requires ShapeOk(c) && h != []
    ensures Run(c, h) == Step(Run(c, h[..|h| - 1]), c, h[|h| - 1])
  {
    hide Find, Hit, Admit;
  }

  lemma {:induction false} FullAll(s: seq<Entry>, v: nat)
    requires WellFormed(s) && v < |s| && Real(s[|s| - 1])
    ensures Real(s[v])
  {
  }

  lemma {:induction false} RunEmpty(c: Shape, h: seq<Access>)
    requires ShapeOk(c) && h == []
    ensures WellFormed(Run(c, h)) && Counted(c, h, Run(c, h)) && ByRecency(h, Run(c, h))
  {
    hide Find, Hit, Admit;
    assert forall i :: 0 <= i < c.size ==> Run(c, h)[i] == NULL_ENTRY;
  }

  lemma {:induction false} HitCounted(c: Shape, h: seq<Access>, s: seq<Entry>, p: nat)
    requires ShapeOk(c) && h != [] && s == Run(c, h[..|h| - 1]) && Find(s, h[|h| - 1].id) == Some(p)
    requires WellFormed(s) && Counted(c, h[..|h| - 1], s) && Real(s[p])
    ensures Counted(c, h, Hit(s, c.newSize, p))
  {
    hide Find, Run;
    var r := Hit(s, c.newSize, p);
    assert forall i :: 0 < i < |r| ==> r[i] == s[if i <= p then i - 1 else i];
    forall i | 0 <= i < |r| && Real(r[i])
      ensures r[i].refCount == 1 + HitsOutside(c, h, r[i].id)
    {
      if i > 0 { assert r[i].id != s[p].id; }
    }
  }

  lemma {:induction false} MissCounted(c: Shape, h: seq<Access>, s: seq<Entry>, v: nat)
    requires ShapeOk(c) && h != [] && s == Run(c, h[..|h| - 1]) && Find(s, h[|h| - 1].id).None? && v < |s|
    requires Counted(c, h[..|h| - 1], s)
    ensures Counted(c, h, Miss(s, Entry(h[|h| - 1].id, 1, h[|h| - 1].buff), v))
  {
    hide Find, Run;
    var r := Miss(s, Entry(h[|h| - 1].id, 1, h[|h| - 1].buff), v);
    assert forall i :: 0 < i < |r| ==> r[i] == s[if i <= v then i - 1 else i];
  }

  // The turn, counted from 1, of the last access to `id`; 0 if there is none.
  function LastAccess(h: seq<Access>, id: BlockID): (n: nat)
    ensures n <= |h| && (n > 0 ==> h[n - 1].id == id) && forall k :: n <= k < |h| ==> h[k].id != id
  {
    if h == [] then 0 else if h[|h| - 1].id == id then |h| else LastAccess(h[..|h| - 1], id)
  }

  ghost predicate ByRecency(h: seq<Access>, s: seq<Entry>) {
    forall i, j :: 0 <= i < j < |s| && Real(s[j]) ==> LastAccess(h, s[j].id) < LastAccess(h, s[i].id)
  }

  // In every reachable state the block of the last access is at the head, and the blocks stand in the order in
  // which they were last accessed.
  lemma {:induction false} RunRecency(c: Shape, h: seq<Access>)
    requires ShapeOk(c) && RealAccesses(h)
    ensures ByRecency(h, Run(c, h)) && (h != [] ==> Run(c, h)[0].id == h[|h| - 1].id)
  {
    hide Run, Find, LastMin, WellFormed, ByRecency, Counted, Hit, Miss;
    if h != [] {
      var h', a := h[..|h| - 1], h[|h| - 1];
      RunRecency(c, h');
      RunSound(c, h');
      RunLast(c, h);
      var s := Run(c, h');
      match Find(s, a.id)
      case Some(p) =>
        OthersFound(s, p);
        HitShifts(s, c.newSize, p);
        HeadMostRecent(h, s, Run(c, h), p);
      case None =>
        var v := if Real(s[|s| - 1]) then LastMin(s, c.oldStart) else |s| - 1;
        MissShifts(s, Entry(a.id, 1, a.buff), v);
        HeadMostRecent(h, s, Run(c, h), v);
    } else {
      RunEmpty(c, h);
    }
  }

  lemma HitShifts(s: seq<Entry>, newSize: nat, p: nat)
    requires p < |s|
    ensures var r := Hit(s, newSize, p);
            |r| == |s| && r[0].id == s[p].id && forall i :: 0 < i < |r| ==> r[i] == s[if i <= p then i - 1 else i]
  {
  }

  lemma MissShifts(s: seq<Entry>, e: Entry, v: nat)
    requires v < |s|
    ensures var r := Miss(s, e, v);
            |r| == |s| && r[0] == e && forall i :: 0 < i < |r| ==> r[i] == s[if i <= v then i - 1 else i]
  {
  }

  lemma {:induction false} OthersFound(s: seq<Entry>, p: nat)
    requires WellFormed(s) && p < |s| && Real(s[p])
    ensures forall i :: 0 <= i < |s| && i != p ==> s[i].id != s[p].id
  {
  }

  // A chain with the entry at `p` taken out and the block of the last access put in front.
  lemma {:induction false} HeadMostRecent(h: seq<Access>, s: seq<Entry>, r: seq<Entry>, p: nat)
    requires h != [] && ByRecency(h[..|h| - 1], s) && p < |s| == |r| && r[0].id == h[|h| - 1].id
    requires forall i :: 0 < i < |r| ==> r[i] == s[if i <= p then i - 1 else i]
    requires forall i :: 0 <= i < |s| && i != p ==> s[i].id != h[|h| - 1].id
    ensures ByRecency(h, r)
  {
    forall i | 0 < i < |r|
      ensures LastAccess(h, r[i].id) == LastAccess(h[..|h| - 1], r[i].id)
    {
      assert r[i].id != h[|h| - 1].id;
    }
  }

  // While there is a null block, a miss evicts nothing.
  lemma {:induction false} AdmitKeepsAll(s: seq<Entry>, oldStart: nat, id: BlockID, buff: seq<Byte>, k: BlockID)
    requires WellFormed(s) && oldStart < |s| && !Real(s[|s| - 1]) && k.blockNumber != -1
    ensures Find(Admit(s, oldStart, id, buff), k).Some? <==> k == id || Find(s, k).Some?
  {
    hide Find;
    var r := Admit(s, oldStart, id, buff);
    assert r[0].id == id;
    assert forall i :: 0 < i < |r| ==> r[i] == s[i - 1];
    if Find(s, k).Some? {
      assert r[Find(s, k).value + 1].id == k;
    }
  }

  // A miss on a full cache evicts exactly one block.
  lemma {:induction false} AdmitEvictsOne(s: seq<Entry>, oldStart: nat, id: BlockID, buff: seq<Byte>, k: BlockID)
    requires WellFormed(s) && oldStart < |s| && Real(s[|s| - 1]) && Find(s, id).None?
    ensures var v := LastMin(s, oldStart);
            Find(Admit(s, oldStart, id, buff), k).Some? <==> k == id || (Find(s, k).Some? && k != s[v].id)
  {
    hide Find, LastMin;
    var v := LastMin(s, oldStart);
    var r := Admit(s, oldStart, id, buff);
    assert r[0].id == id;
    assert forall i :: 0 < i < |r| ==> r[i] == s[if i <= v then i - 1 else i];
    EvictsOne(s, r, v, id, k);
  }

  // A chain with one entry replaced by a new one in front.
  lemma {:induction false} EvictsOne(s: seq<Entry>, r: seq<Entry>, v: nat, id: BlockID, k: BlockID)
    requires WellFormed(s) && v < |s| && Real(s[|s| - 1]) && |r| == |s| && r[0].id == id && Find(s, id).None?
    requires forall i :: 0 < i < |r| ==> r[i] == s[if i <= v then i - 1 else i]
    ensures Find(r, k).Some? <==> k == id || (Find(s, k).Some? && k != s[v].id)
  {
    hide Find;
    if Find(s, k).Some? && k != s[v].id {
      var p := Find(s, k).value;
      assert r[if p < v then p + 1 else p].id == k;
    }
    if Find(r, k).Some? && k != id {
      var i := Find(r, k).value;
      var j := if i <= v then i - 1 else i;
      assert s[j].id == k && j != v && Real(s[j]);
    }
  }
}
