/** The incremental linear-hash tables of libfuse (`struct node_table`), which find nodes by id and by
    (parent, name).  Buckets are split and merged one at a time; growing and shrinking the bucket array may
    fail to reallocate. */
module NodeTable {
  import opened Common

  const NODE_TABLE_MIN_SIZE: nat := 8192

  // ------------------------------------------------------------------ hash functions

  // The 32-bit product that `id_hash` reduces.
  function IdHash(ino: nat): nat {
    ((ino % 0x1_0000_0000) * 2654435761) % 0x1_0000_0000
  }

  const U64: nat := 0x1_0000_0000_0000_0000

  // The parent and the characters of the name as digits to the base 31.
  function Digits(parent: nat, name: seq<nat>): nat {
    if name == [] then parent else Digits(parent, name[..|name| - 1]) * 31 + name[|name| - 1]
  }

  // The value `name_hash` reduces.
  function NameHash(key: (nat, seq<nat>)): nat {
    Digits(key.0, key.1) % U64
  }

  // The loop of `name_hash`: wrapping at every step gives the whole number modulo 2^64.
  method ComputeNameHash(parent: nat, name: seq<nat>) returns (hash: nat)
    requires parent < U64
    ensures hash == NameHash((parent, name))
  {
    hash := parent;
    for i := 0 to |name|
      invariant hash == Digits(parent, name[..i]) % U64
    {
      WrapStep(Digits(parent, name[..i]), name[i]);
      hash := (hash * 31 + name[i]) % U64;
      assert name[..i + 1][..i] == name[..i];
    }
    assert name[..|name|] == name;
  }

  lemma WrapStep(p: nat, c: nat)
    ensures (p % U64 * 31 + c) % U64 == (p * 31 + c) % U64
  {
    assert p == p / U64 * U64 + p % U64;
    assert p * 31 + c == (p / U64 * 31) * U64 + (p % U64 * 31 + c);
  }

  // ------------------------------------------------------------------ bucket addresses

  predicate TableSize(n: nat) {
    n == NODE_TABLE_MIN_SIZE || (n % 2 == 0 && n > NODE_TABLE_MIN_SIZE && TableSize(n / 2))
  }

  // Buckets below `split` have already been divided in two: they use the whole size, the others half of it.
  function Slot(h: nat, size: nat, split: nat): nat
    requires size >= 2
  {
    var hash := Mod(h, size);
    var oldhash := Mod(hash, size / 2);
    if oldhash >= split then oldhash else hash
  }

  function Mod(h: nat, d: nat): nat
    requires d > 0
  {
    h % d
  }

  lemma {:induction false} TableSizeEven(n: nat)
    requires TableSize(n)
    ensures n % 2 == 0 && n >= NODE_TABLE_MIN_SIZE && TableSize(2 * n)
    ensures n == NODE_TABLE_MIN_SIZE ==> n / 2 < NODE_TABLE_MIN_SIZE
    ensures n != NODE_TABLE_MIN_SIZE ==> n / 2 >= NODE_TABLE_MIN_SIZE && TableSize(n / 2)
  {
    assert (2 * n) / 2 == n;
  }

  lemma ModDef(h: nat, d: nat) returns (q: nat)
    requires d > 0
    ensures h == d * q + Mod(h, d) && Mod(h, d) < d
  {
    q := h / d;
  }

  lemma {:induction false} MulAtLeast(d: nat, k: nat)
    requires k >= 1
    ensures d * k >= d
  {
    if k > 1 {
      MulAtLeast(d, k - 1);
      assert d * k == d * (k - 1) + d;
    }
  }

  lemma DivUnique(d: nat, q: nat, r: nat, q': nat, r': nat)
    requires d * q + r == d * q' + r' && r < d && r' < d
    ensures q == q' && r == r'
  {
    if q < q' {
      assert d * (q' - q) == d * q' - d * q;
      MulAtLeast(d, q' - q);
    } else if q' < q {
      assert d * (q - q') == d * q - d * q';
      MulAtLeast(d, q - q');
    }
  }

  lemma ModUnique(h: nat, d: nat, q: nat, r: nat)
    requires r < d && h == d * q + r
    ensures Mod(h, d) == r
  {
    hide Mod;
    var q' := ModDef(h, d);
    DivUnique(d, q, r, q', Mod(h, d));
  }

  lemma ModHalf(h: nat, half: nat)
    requires half > 0
    ensures Mod(h, 2 * half) == Mod(h, half) || Mod(h, 2 * half) == Mod(h, half) + half
    ensures Mod(Mod(h, 2 * half), half) == Mod(h, half) < half
  {
    hide Mod;
    var q := ModDef(h, 2 * half);
    var r := Mod(h, 2 * half);
    assert half * (2 * q) == (2 * half) * q;
    if r < half {
      ModUnique(h, half, 2 * q, r);
      ModUnique(r, half, 0, r);
    } else {
      assert half * (2 * q + 1) == half * (2 * q) + half;
      ModUnique(h, half, 2 * q + 1, r - half);
      ModUnique(r, half, 1, r - half);
    }
  }

  lemma SlotCases(h: nat, half: nat, split: nat)
    requires 0 < half && split <= half
    ensures Slot(h, 2 * half, split) == if Mod(h, half) >= split then Mod(h, half) else Mod(h, 2 * half)
    ensures Slot(h, 2 * half, split) == Mod(h, half) || Slot(h, 2 * half, split) == Mod(h, half) + half
    ensures Slot(h, 2 * half, split) < half + split
    ensures Mod(h, half) < half
  {
    hide Mod;
    ModHalf(h, half);
    assert (2 * half) / 2 == half;
  }

  // Splitting one more bucket only moves keys of that bucket, and only to its upper half.
  lemma SlotSplit(h: nat, half: nat, split: nat)
    requires 0 < half && split < half
    ensures Slot(h, 2 * half, split) != split ==> Slot(h, 2 * half, split + 1) == Slot(h, 2 * half, split)
    ensures Slot(h, 2 * half, split) == split ==>
              Slot(h, 2 * half, split + 1) == split || Slot(h, 2 * half, split + 1) == split + half
    ensures Slot(h, 2 * half, split + 1) == split || Slot(h, 2 * half, split + 1) == split + half ==>
              Slot(h, 2 * half, split) == split
  {
    hide Mod;
    SlotCases(h, half, split);
    SlotCases(h, half, split + 1);
  }

  // Doubling a completely split table, or halving a completely merged one, moves nothing.
  lemma SlotResize(h: nat, size: nat)
    requires size >= 2 && size % 2 == 0
    ensures Slot(h, 2 * size, 0) == Slot(h, size, size / 2)
  {
    hide Mod;
    SlotCases(h, size, 0);
    SlotCases(h, size / 2, size / 2);
  }

  // ------------------------------------------------------------------ the table as a value

  // Every key sits in the one bucket its hash addresses, once; `keys` are exactly the keys so found.
  ghost predicate Holds<K(!new)>(buckets: seq<seq<K>>, half: nat, split: nat, hash: K -> nat, keys: set<K>) {
    && 0 < half && 2 * half <= |buckets| && split <= half
    && (forall b :: 0 <= b < 2 * half ==> Distinct(buckets[b]))
    && (forall b, k :: 0 <= b < 2 * half && k in buckets[b] ==> b == Slot(hash(k), 2 * half, split) && k in keys)
    && (forall k :: k in keys ==> k in Bucket(buckets, half, split, hash, k))
  }

  ghost function Bucket<K>(buckets: seq<seq<K>>, half: nat, split: nat, hash: K -> nat, k: K): seq<K>
    requires 0 < half && 2 * half <= |buckets| && split <= half
  {
    SlotCases(hash(k), half, split);
    buckets[Slot(hash(k), 2 * half, split)]
  }

  // Buckets that have not been split off yet are empty.
  lemma UpperEmpty<K(!new)>(buckets: seq<seq<K>>, half: nat, split: nat, hash: K -> nat, keys: set<K>, b: nat)
    requires Holds(buckets, half, split, hash, keys) && half + split <= b < 2 * half
    ensures buckets[b] == []
  {
    hide Mod;
    hide Slot;
    if buckets[b] != [] {
      var k := buckets[b][0];
      assert k in buckets[b];
      SlotCases(hash(k), half, split);
    }
  }

  lemma AddKey<K(!new)>(buckets: seq<seq<K>>, half: nat, split: nat, hash: K -> nat, keys: set<K>, k: K, b: nat)
    requires Holds(buckets, half, split, hash, keys) && k !in keys && b == Slot(hash(k), 2 * half, split)
    ensures b < 2 * half && Holds(buckets[b := [k] + buckets[b]], half, split, hash, keys + {k})
  {
    hide Mod;
    SlotCases(hash(k), half, split);
    var new_ := buckets[b := [k] + buckets[b]];
    forall m | m in keys + {k}
      ensures m in Bucket(new_, half, split, hash, m)
    {
      SlotCases(hash(m), half, split);
      assert m in keys ==> m in Bucket(buckets, half, split, hash, m);
    }
  }

  lemma DropKey<K(!new)>(buckets: seq<seq<K>>, half: nat, split: nat, hash: K -> nat, keys: set<K>, b: nat, i: nat)
    requires Holds(buckets, half, split, hash, keys) && b < 2 * half && i < |buckets[b]|
    ensures Holds(buckets[b := buckets[b][..i] + buckets[b][i + 1..]], half, split, hash, keys - {buckets[b][i]})
  {
    hide Mod;
    var old_, k := buckets[b], buckets[b][i];
    var new_ := old_[..i] + old_[i + 1..];
    assert k in old_;
    assert forall j :: 0 <= j < |new_| ==> new_[j] == old_[if j < i then j else j + 1];
    forall m | m in old_ && m != k
      ensures m in new_
    {
      var j :| 0 <= j < |old_| && old_[j] == m;
      assert new_[if j < i then j else j - 1] == m;
    }
    forall m | m in keys - {k}
      ensures m in Bucket(buckets[b := new_], half, split, hash, m)
    {
      SlotCases(hash(m), half, split);
      assert m in Bucket(buckets, half, split, hash, m);
    }
  }

  // The state of a split in progress: keys of bucket `split` are being moved to bucket `split + half`.
  ghost predicate Splitting<K(!new)>(orig: seq<seq<K>>, cur: seq<seq<K>>, half: nat, split: nat, hash: K -> nat,
      i: nat) {
    && 0 < half && split < half && 2 * half <= |orig| == |cur| && i <= |cur[split]|
    && (forall b :: 0 <= b < |cur| && b != split && b != split + half ==> cur[b] == orig[b])
    && Distinct(cur[split]) && Distinct(cur[split + half])
    && (forall k :: k in orig[split] <==> k in cur[split] || k in cur[split + half])
    && (forall k :: k in cur[split] ==> k !in cur[split + half])
    && (forall j :: 0 <= j < i ==> Slot(hash(cur[split][j]), 2 * half, split + 1) == split)
    && (forall k :: k in cur[split + half] ==> Slot(hash(k), 2 * half, split + 1) == split + half)
  }

  lemma SplitMove<K(!new)>(orig: seq<seq<K>>, cur: seq<seq<K>>, half: nat, split: nat, hash: K -> nat, i: nat, k: K)
    requires Splitting(orig, cur, half, split, hash, i) && i < |cur[split]| && k == cur[split][i]
    requires Slot(hash(k), 2 * half, split + 1) == split + half
    ensures var low := cur[split][..i] + cur[split][i + 1..];
            Splitting(orig, cur[split := low][split + half := [k] + cur[split + half]], half, split, hash, i)
  {
    hide Slot;
    var old_ := cur[split];
    var low := old_[..i] + old_[i + 1..];
    assert forall j :: 0 <= j < |low| ==> low[j] == old_[if j < i then j else j + 1];
    forall m | m in old_ && m != k
      ensures m in low
    {
      var j :| 0 <= j < |old_| && old_[j] == m;
      assert low[if j < i then j else j - 1] == m;
    }
    assert k !in low;
    var up, up' := cur[split + half], [k] + cur[split + half];
    assert k in old_ && k !in up;
    assert forall m :: m in up' <==> m == k || m in up;
    var cur' := cur[split := low][split + half := up'];
    assert cur'[split] == low && cur'[split + half] == up';
    forall m
      ensures m in orig[split] <==> m in low || m in up'
    {
      if m in low { assert m in old_; }
    }
    forall m | m in low ensures m !in up' { assert m in old_; }
    assert Distinct(low) && Distinct(up');
  }

  lemma SplitDone<K(!new)>(orig: seq<seq<K>>, cur: seq<seq<K>>, half: nat, split: nat, hash: K -> nat, keys: set<K>)
    requires Holds(orig, half, split, hash, keys) && split < |cur| &&
      Splitting(orig, cur, half, split, hash, |cur[split]|)
    ensures Holds(cur, half, split + 1, hash, keys)
  {
    hide Slot;
    forall b, k | 0 <= b < 2 * half && k in cur[b]
      ensures b == Slot(hash(k), 2 * half, split + 1) && k in keys
    {
      SlotSplit(hash(k), half, split);
      if b == split || b == split + half { assert k in orig[split]; }
    }
    forall k | k in keys
      ensures k in Bucket(cur, half, split + 1, hash, k)
    {
      assert k in Bucket(orig, half, split, hash, k);
      SlotCases(hash(k), half, split);
      SlotCases(hash(k), half, split + 1);
      SlotSplit(hash(k), half, split);
      if Slot(hash(k), 2 * half, split) == split { assert k in orig[split]; }
    }
  }

  lemma DistinctConcat<K>(a: seq<K>, b: seq<K>)
    requires Distinct(a) && Distinct(b) && forall k :: k in a ==> k !in b
    ensures Distinct(a + b)
  {
    forall i, j | 0 <= i < j < |a + b|
      ensures (a + b)[i] != (a + b)[j]
    {
      if i < |a| <= j {
        assert a[i] in a && b[j - |a|] in b;
      }
    }
  }

  // Merging bucket `lo`, the last one split off, with its upper half.
  lemma MergeKeeps<K(!new)>(buckets: seq<seq<K>>, half: nat, lo: nat, hash: K -> nat, keys: set<K>)
    requires Holds(buckets, half, lo + 1, hash, keys)
    ensures var hi := lo + half;
            Holds(buckets[lo := buckets[lo] + buckets[hi]][hi := []], half, lo, hash, keys)
  {
    var hi := lo + half;
    var low := buckets[lo] + buckets[hi];
    var cur := buckets[lo := low][hi := []];
    hide Slot;
    assert Distinct(low) by {
      forall k | k in buckets[lo]
        ensures k !in buckets[hi]
      {
        assert Slot(hash(k), 2 * half, lo + 1) == lo != hi;
      }
      DistinctConcat(buckets[lo], buckets[hi]);
    }
    hide Distinct;
    assert Distinct<K>([]) by { DistinctEmpty<K>(); }
    forall b, k | 0 <= b < 2 * half && k in cur[b]
      ensures b == Slot(hash(k), 2 * half, lo) && k in keys
    {
      assert k in buckets[b] || k in buckets[hi];
      SlotSplit(hash(k), half, lo);
    }
    forall k | k in keys
      ensures k in Bucket(cur, half, lo, hash, k)
    {
      var b := Slot(hash(k), 2 * half, lo + 1);
      assert k in Bucket(buckets, half, lo + 1, hash, k);
      SlotCases(hash(k), half, lo + 1);
      SlotCases(hash(k), half, lo);
      SlotSplit(hash(k), half, lo);
      assert k in buckets[b];
    }
  }

  lemma DistinctEmpty<K>()
    ensures Distinct<K>([])
  {
  }

  // Doubling a completely split table: the new upper half is empty.
  lemma GrowKeeps<K(!new)>(old_: seq<seq<K>>, new_: seq<seq<K>>, half: nat, hash: K -> nat, keys: set<K>)
    requires Holds(old_, half, half, hash, keys) && |new_| >= 4 * half && new_[..2 * half] == old_[..2 * half]
    requires forall b :: 2 * half <= b < 4 * half ==> new_[b] == []
    ensures Holds(new_, 2 * half, 0, hash, keys)
  {
    hide Mod;
    assert forall b :: 0 <= b < 2 * half ==> new_[b] == new_[..2 * half][b] == old_[b];
    forall k | k in keys
      ensures k in Bucket(new_, 2 * half, 0, hash, k)
    {
      assert k in Bucket(old_, half, half, hash, k);
      SlotResize(hash(k), 2 * half);
      SlotCases(hash(k), half, half);
    }
    forall b, k | 0 <= b < 4 * half && k in new_[b]
      ensures b == Slot(hash(k), 4 * half, 0) && k in keys
    {
      SlotResize(hash(k), 2 * half);
    }
  }

  // Halving a completely merged table: its upper half was empty.
  lemma ReduceKeeps<K(!new)>(old_: seq<seq<K>>, new_: seq<seq<K>>, half: nat, hash: K -> nat, keys: set<K>)
    requires Holds(old_, 2 * half, 0, hash, keys) && 0 < half && |new_| >= 2 * half &&
      new_[..2 * half] == old_[..2 * half]
    ensures Holds(new_, half, half, hash, keys)
  {
    hide Mod;
    assert forall b :: 0 <= b < 2 * half ==> new_[b] == new_[..2 * half][b] == old_[b];
    forall k | k in keys
      ensures k in Bucket(new_, half, half, hash, k)
    {
      assert k in Bucket(old_, 2 * half, 0, hash, k);
      SlotResize(hash(k), 2 * half);
      SlotCases(hash(k), half, half);
    }
    forall b, k | 0 <= b < 2 * half && k in new_[b]
      ensures b == Slot(hash(k), 2 * half, half) && k in keys
    {
      SlotResize(hash(k), 2 * half);
    }
  }

  // ------------------------------------------------------------------ how full the table is

  // The counters of a table.
  datatype Gauge = Gauge(size: nat, split: nat, use: nat) {
    // The buckets in use: the lower half of the table and those split off so far.
    function Active(): nat {
      size / 2 + split
    }

    // There are no more keys than buckets in use, and there is a bucket left to split.
    predicate Light() {
      split < size / 2 && use <= Active()
    }

    // Every bucket has been split and the table has not grown.
    predicate Stuck() {
      split == size / 2
    }
  }

  // `rehash_id` / `rehash_name`
  function Rehashed(g: Gauge, growOk: bool): Gauge {
    if g.Stuck() then g
    else if g.split + 1 == g.size / 2 && growOk then Gauge(2 * g.size, 0, g.use)
    else g.(split := g.split + 1)
  }

  // `hash_id` / `hash_name`
  function Hashed(g: Gauge, growOk: bool): Gauge {
    var g1 := g.(use := g.use + 1);
    if g1.use >= g.size / 2 then Rehashed(g1, growOk) else g1
  }

  // The load bound survives an insertion unless that splits the last bucket and the table cannot grow.
  lemma LightIff(g: Gauge, growOk: bool)
    requires g.Light() && g.size % 2 == 0
    ensures Hashed(g, growOk).size % 2 == 0
    ensures Hashed(g, growOk).Light() <==> growOk || !(g.split + 1 == g.size / 2 && g.use + 1 >= g.size / 2)
    ensures Hashed(g, growOk).Stuck() <==> !growOk && g.split + 1 == g.size / 2 && g.use + 1 >= g.size / 2
  {
  }

  // A run of insertions, each with the outcome of the reallocation it may attempt.
  function HashedAll(g: Gauge, run: seq<bool>): Gauge {
    if run == [] then g else Hashed(HashedAll(g, run[..|run| - 1]), run[|run| - 1])
  }

  // However many insertions follow, and even if memory is there again, a stuck table never grows.
  lemma {:induction false} StuckStays(g: Gauge, run: seq<bool>)
    requires g.Stuck()
    ensures HashedAll(g, run) == g.(use := g.use + |run|)
  {
    if run != [] {
      StuckStays(g, run[..|run| - 1]);
    }
  }

  // With every reallocation succeeding the bound holds for ever.
  lemma {:induction false} LightStays(g: Gauge, run: seq<bool>)
    requires g.Light() && g.size % 2 == 0 && forall i :: 0 <= i < |run| ==> run[i]
    ensures HashedAll(g, run).Light() && HashedAll(g, run).size % 2 == 0
  {
    hide Hashed;
    if run != [] {
      LightStays(g, run[..|run| - 1]);
      LightIff(HashedAll(g, run[..|run| - 1]), true);
    }
  }

  // The counters of a table that never gets memory.
  lemma {:induction false} NeverGrows(n: nat)
    ensures HashedAll(Gauge(NODE_TABLE_MIN_SIZE, 0, 0), seq(n, _ => false))
         == Gauge(NODE_TABLE_MIN_SIZE, if n < 4096 then 0 else if n <= 8191 then n - 4095 else 4096, n)
  {
    if n > 0 {
      NeverGrows(n - 1);
      assert seq(n, _ => false)[..n - 1] == seq(n - 1, _ => false);
    }
  }

  // An instance that breaks the bound: one failed reallocation at the 8191st insertion, and from then on none.
  lemma BoundBroken()
    ensures var g := HashedAll(Gauge(NODE_TABLE_MIN_SIZE, 0, 0), seq(8191, _ => false));
            g.Stuck() && g.use <= g.Active()
            && HashedAll(g, [true, true]).Stuck() &&
              HashedAll(g, [true, true]).use > HashedAll(g, [true, true]).Active()
  {
    NeverGrows(8191);
    StuckStays(HashedAll(Gauge(NODE_TABLE_MIN_SIZE, 0, 0), seq(8191, _ => false)), [true, true]);
  }

  // ------------------------------------------------------------------ the table

  class Table<K(!new, ==)> {
    const hash: K -> nat
    var buckets: array<seq<K>>
    var use: nat
    var size: nat
    var split: nat
    ghost var keys: set<K>       // the keys in the table
    ghost var pending: nat       // keys unlinked whose removal has not yet been counted in `use`

    ghost predicate Valid()
      reads this, buckets
    {
      && TableSize(size) && size <= buckets.Length && use == |keys| + pending
      && Holds(buckets[..], size / 2, split, hash, keys)
    }

    ghost function View(): Gauge
      reads this`size, this`split, this`use
    {
      Gauge(size, split, use)
    }

    // `node_table_init`
    constructor (hash: K -> nat)
      ensures Valid() && fresh(buckets) && this.hash == hash && keys == {} && pending == 0 &&
        View() == Gauge(NODE_TABLE_MIN_SIZE, 0, 0)
    {
      this.hash := hash;
      var a := new seq<K>[NODE_TABLE_MIN_SIZE](_ => []);
      buckets := a;
      use, size, split := 0, NODE_TABLE_MIN_SIZE, 0;
      keys, pending := {}, 0;
    }

    // `id_hash` / `name_hash`, after the hash value has been computed
    method Address(k: K) returns (b: nat)
      requires Valid()
      ensures b == Slot(hash(k), size, split) && b < size
    {
      TableSizeEven(size);
      SlotCases(hash(k), size / 2, split);
      var h := Mod(hash(k), size);
      var oldh := Mod(h, size / 2);
      b := if oldh >= split then oldh else h;
    }

    // `get_node_nocheck` / `lookup_node`: finds exactly the keys in the table.
    method Find(k: K) returns (found: bool)
      requires Valid()
      ensures found <==> k in keys
    {
      TableSizeEven(size);
      var b := Address(k);
      var i := 0;
      while i < |buckets[b]|
        invariant i <= |buckets[b]| && forall j :: 0 <= j < i ==> buckets[b][j] != k
      {
        if buckets[b][i] == k {
          assert k in buckets[..][b];
          return true;
        }
        i := i + 1;
      }
      NotFound(buckets[..], size / 2, split, hash, keys, k);
      return false;
    }

    // A successful `realloc` of the bucket array, its new cells cleared.
    method Realloc(newsize: nat) returns (a: array<seq<K>>)
      requires size <= buckets.Length
      ensures fresh(a) && a.Length == newsize
      ensures forall b :: 0 <= b < newsize && b < size ==> a[b] == buckets[b]
      ensures forall b :: size <= b < newsize ==> a[b] == []
      ensures newsize >= size ==> a[..][..size] == buckets[..][..size]
      ensures newsize <= size ==> a[..][..newsize] == buckets[..][..newsize]
    {
      a := new seq<K>[newsize](_ => []);
      var n := if newsize < size then newsize else size;
      for i := 0 to n
        invariant forall b :: 0 <= b < i ==> a[b] == buckets[b]
        invariant forall b :: i <= b < newsize ==> a[b] == []
      {
        a[i] := buckets[i];
      }
    }

    // `node_table_resize`: on failure the table stays completely split.
    method Resize(growOk: bool)
      requires Valid() && split == size / 2
      modifies this`buckets, this`size, this`split
      ensures Valid() && (buckets == old(buckets) || fresh(buckets))
      ensures if growOk then size == 2 * old(size) && split == 0 else size == old(size) && split == old(split)
    {
      if !growOk {
        return;
      }
      hide Holds, TableSize;
      TableSizeEven(size);
      HoldsBounds(buckets[..], size / 2, split, hash, keys);
      var newarray := Realloc(2 * size);
      assert 2 * (size / 2) == size && (2 * size) / 2 == size;
      GrowKeeps(buckets[..], newarray[..], size / 2, hash, keys);
      buckets := newarray;
      size := 2 * size;
      split := 0;
    }

    // `node_table_reduce`: the size is halved even if the array could not be shrunk.
    method Reduce(shrinkOk: bool)
      requires Valid() && split == 0
      modifies this`buckets, this`size, this`split
      ensures Valid() && (buckets == old(buckets) || fresh(buckets))
      ensures if old(size) / 2 < NODE_TABLE_MIN_SIZE then size == old(size) && split == 0
              else size == old(size) / 2 && split == size / 2
    {
      var newsize := size / 2;
      if newsize < NODE_TABLE_MIN_SIZE {
        return;
      }
      hide Holds, TableSize;
      TableSizeEven(size);
      TableSizeEven(newsize);
      HoldsBounds(buckets[..], size / 2, split, hash, keys);
      ghost var before := buckets[..];
      if shrinkOk {
        var newarray := Realloc(newsize);
        buckets := newarray;
      }
      ReduceKeeps(before, buckets[..], newsize / 2, hash, keys);
      size := newsize;
      split := size / 2;
    }

    // `rehash_id` / `rehash_name`: split one bucket, and grow the table after the last one.
    method Rehash(growOk: bool)
      requires Valid()
      modifies this`buckets, this`size, this`split, buckets
      ensures Valid() && (buckets == old(buckets) || fresh(buckets))
      ensures View() == Rehashed(old(View()), growOk)
    {
      hide Holds, TableSize;
      TableSizeEven(size);
      HoldsBounds(buckets[..], size / 2, split, hash, keys);
      if split == size / 2 {
        return;
      }
      var h := split;
      split := split + 1;
      SplitBucket(h, size / 2);
      if split == size / 2 {
        Resize(growOk);
      }
    }

    // Move every key of bucket `h` whose address is now another one to the front of that bucket.
    method SplitBucket(h: nat, half: nat)
      requires half == size / 2 && size == 2 * half && split == h + 1 && h < half
      requires Holds(buckets[..], half, h, hash, keys)
      modifies buckets
      ensures Holds(buckets[..], half, h + 1, hash, keys)
    {
      hide Slot, Distinct, Holds;
      HoldsBounds(buckets[..], half, h, hash, keys);
      ghost var before := buckets[..];
      SplitStart(before, half, h, hash, keys);
      var i := 0;
      while i < |buckets[h]|
        invariant Splitting(before, buckets[..], half, h, hash, i)
        decreases |buckets[h]| - i
      {
        var k := buckets[h][i];
        assert buckets[..][h] == buckets[h] && k in buckets[..][h];
        SplitTarget(before, half, h, hash, keys, k);
        var newhash := Slot(hash(k), size, split);
        if newhash != h {
          SplitMove(before, buckets[..], half, h, hash, i, k);
          ghost var cur := buckets[..];
          buckets[h] := buckets[h][..i] + buckets[h][i + 1..];
          buckets[newhash] := [k] + buckets[newhash];
          assert buckets[..] == cur[h := cur[h][..i] + cur[h][i + 1..]][h + half := [k] + cur[h + half]];
        } else {
          i := i + 1;
        }
      }
      SplitDone(before, buckets[..], half, h, hash, keys);
    }

    // `hash_id` / the end of `hash_name`
    method Hash(k: K, growOk: bool)
      requires Valid() && k !in keys
      modifies this`buckets, this`size, this`split, this`use, this`keys, buckets
      ensures Valid() && keys == old(keys) + {k} && (buckets == old(buckets) || fresh(buckets))
      ensures View() == Hashed(old(View()), growOk)
      ensures old(View()).Light() ==>
        (View().Light() <==> growOk || !(old(split) + 1 == old(size) / 2 && old(use) + 1 >= old(size) / 2))
    {
      hide Holds, TableSize;
      TableSizeEven(size);
      Link(k);
      if use >= size / 2 {
        Rehash(growOk);
      }
      if old(View()).Light() {
        LightIff(old(View()), growOk);
      }
    }

    // Put a key at the front of its bucket and count it.
    method Link(k: K)
      requires Valid() && k !in keys
      modifies this`use, this`keys, buckets
      ensures Valid() && keys == old(keys) + {k} && use == old(use) + 1
    {
      hide Slot, Distinct, Holds, TableSize;
      TableSizeEven(size);
      var b := Address(k);
      HoldsBounds(buckets[..], size / 2, split, hash, keys);
      AddKey(buckets[..], size / 2, split, hash, keys, k, b);
      ghost var before := buckets[..];
      buckets[b] := [k] + buckets[b];
      assert buckets[..] == before[b := [k] + before[b]];
      keys := keys + {k};
      use := use + 1;
    }

    // `remerge_id` / `remerge_name`: merge up to eight buckets, stopping after one that was not empty.
    method Remerge(shrinkOk: bool)
      requires Valid()
      modifies this`buckets, this`size, this`split, buckets
      ensures Valid() && (buckets == old(buckets) || fresh(buckets))
      ensures old(View()).Active() - 8 <= View().Active() <= old(View()).Active() && old(size) / 2 <= size
      ensures View().Active() == old(View()).Active() <==> old(View()).Active() == NODE_TABLE_MIN_SIZE / 2
      ensures !View().Stuck() && split < size / 2
    {
      hide Holds, TableSize;
      TableSizeEven(size);
      HoldsBounds(buckets[..], size / 2, split, hash, keys);
      if split == 0 {
        Reduce(shrinkOk);
        TableSizeEven(size);
      }
      assert View().Active() == old(View()).Active();
      ghost var n := size;
      var iter, stop := 8, false;
      while split > 0 && iter > 0 && !stop
        invariant Valid() && (buckets == old(buckets) || fresh(buckets)) && size == n
        invariant 0 <= iter <= 8 && View().Active() == old(View()).Active() - 8 + iter && (iter == 8 ==> !stop)
        decreases iter
      {
        stop := MergeOne();
        iter := iter - 1;
      }
    }

    // One merge; `stop` says that there was something to move.
    method MergeOne() returns (stop: bool)
      requires Valid() && split > 0
      modifies this`split, buckets
      ensures Valid() && split == old(split) - 1 && (stop <==> old(buckets[..])[split + size / 2] != [])
    {
      hide Slot, Distinct, Holds, TableSize;
      TableSizeEven(size);
      HoldsBounds(buckets[..], size / 2, split, hash, keys);
      MergeKeeps(buckets[..], size / 2, split - 1, hash, keys);
      ghost var before := buckets[..];
      split := split - 1;
      var upper := split + size / 2;
      stop := buckets[upper] != [];
      if stop {
        buckets[split] := buckets[split] + buckets[upper];
        buckets[upper] := [];
        assert buckets[..] == before[split := before[split] + before[upper]][upper := []];
      } else {
        assert before[split] + before[upper] == before[split];
        assert before == before[split := before[split] + before[upper]][upper := []];
      }
    }

    // The first part of `unhash_id` / `unhash_name`: unlink the node from its bucket.
    method Unlink(k: K) returns (found: bool)
      requires Valid()
      modifies this`keys, this`pending, buckets
      ensures Valid() && found == (k in old(keys)) && keys == old(keys) - {k}
      ensures pending == old(pending) + (if found then 1 else 0)
    {
      hide Slot;
      TableSizeEven(size);
      var b := Address(k);
      var i := 0;
      while i < |buckets[b]|
        invariant i <= |buckets[b]| && forall j :: 0 <= j < i ==> buckets[b][j] != k
      {
        if buckets[b][i] == k {
          ghost var before := buckets[..];
          assert k in before[b];
          DropKey(before, size / 2, split, hash, keys, b, i);
          buckets[b] := buckets[b][..i] + buckets[b][i + 1..];
          assert buckets[..] == before[b := before[b][..i] + before[b][i + 1..]];
          keys, pending := keys - {k}, pending + 1;
          return true;
        }
        i := i + 1;
      }
      NotFound(buckets[..], size / 2, split, hash, keys, k);
      return false;
    }

    // The rest of them: count the removal and shrink.
    method CountRemoval(shrinkOk: bool)
      requires Valid() && pending > 0
      modifies this`buckets, this`size, this`split, this`use, this`pending, buckets
      ensures Valid() && pending == old(pending) - 1 && (buckets == old(buckets) || fresh(buckets))
      ensures old(View()).Light() ==> View().Light()
    {
      hide Holds;
      use, pending := use - 1, pending - 1;
      if use < size / 4 {
        Remerge(shrinkOk);
      }
    }

    // `unhash_id`
    method Unhash(k: K, shrinkOk: bool)
      requires Valid()
      modifies this, buckets
      ensures Valid() && keys == old(keys) - {k} && pending == old(pending) &&
        (buckets == old(buckets) || fresh(buckets))
      ensures old(View()).Light() ==> View().Light()
    {
      hide Holds;
      var found := Unlink(k);
      if found {
        CountRemoval(shrinkOk);
      }
    }
  }

  lemma NotFound<K(!new)>(buckets: seq<seq<K>>, half: nat, split: nat, hash: K -> nat, keys: set<K>, k: K)
    requires Holds(buckets, half, split, hash, keys) && k !in Bucket(buckets, half, split, hash, k)
    ensures k !in keys
  {
  }

  lemma SplitTarget<K(!new)>(orig: seq<seq<K>>, half: nat, split: nat, hash: K -> nat, keys: set<K>, k: K)
    requires Holds(orig, half, split, hash, keys) && split < half && k in orig[split]
    ensures Slot(hash(k), 2 * half, split + 1) == split || Slot(hash(k), 2 * half, split + 1) == split + half
  {
    SlotSplit(hash(k), half, split);
  }

  lemma SplitStart<K(!new)>(orig: seq<seq<K>>, half: nat, split: nat, hash: K -> nat, keys: set<K>)
    requires Holds(orig, half, split, hash, keys) && split < half
    ensures Splitting(orig, orig, half, split, hash, 0)
  {
    UpperEmpty(orig, half, split, hash, keys, split + half);
  }

  lemma HoldsBounds<K(!new)>(buckets: seq<seq<K>>, half: nat, split: nat, hash: K -> nat, keys: set<K>)
    requires Holds(buckets, half, split, hash, keys)
    ensures 0 < half && 2 * half <= |buckets| && split <= half
  {
  }

  // ------------------------------------------------------------------ whole runs

  // The operations on a table, with the outcome of the reallocation each may attempt.
  // `unhash_name` unlinks a node, removes others through its parent, and only then counts the removal: Unlink and Count
  // may have other operations between them.
  datatype Op<K> = Put(k: K, growOk: bool) | Drop(k: K, shrinkOk: bool) | Unlink(k: K) | Count(shrinkOk: bool)

  // What an operation does to a plain set, and to the number of removals not yet counted.
  function Effect<K>(keys: set<K>, op: Op<K>): set<K> {
    match op
    case Put(k, _) => keys + {k}
    case Drop(k, _) => keys - {k}
    case Unlink(k) => keys - {k}
    case Count(_) => keys
  }

  function Change<K(==)>(keys: set<K>, op: Op<K>): int {
    match op
    case Unlink(k) => if k in keys then 1 else 0
    case Count(_) => -1
    case _ => 0
  }

  function Plain<K>(run: seq<Op<K>>): set<K> {
    if run == [] then {} else Effect(Plain(run[..|run| - 1]), run[|run| - 1])
  }

  function Uncounted<K(==)>(run: seq<Op<K>>): int {
    if run == [] then 0 else Uncounted(run[..|run| - 1]) + Change(Plain(run[..|run| - 1]), run[|run| - 1])
  }

  lemma RunStep<K>(run: seq<Op<K>>, i: nat)
    requires i < |run|
    ensures Plain(run[..i + 1]) == Effect(Plain(run[..i]), run[i])
    ensures Uncounted(run[..i + 1]) == Uncounted(run[..i]) + Change(Plain(run[..i]), run[i])
  {
    assert run[..i + 1][..i] == run[..i];
  }

  method Apply<K(!new, ==)>(t: Table<K>, op: Op<K>)
    requires t.Valid() && (op.Put? ==> op.k !in t.keys) && (op.Count? ==> t.pending > 0)
    modifies t, t.buckets
    ensures t.Valid() && (t.buckets == old(t.buckets) || fresh(t.buckets))
    ensures t.keys == Effect(old(t.keys), op) && t.pending == old(t.pending) + Change(old(t.keys), op)
  {
    hide Holds, TableSize;
    match op
    case Put(k, growOk) => t.Hash(k, growOk);
    case Drop(k, shrinkOk) => t.Unhash(k, shrinkOk);
    case Unlink(k) => var _ := t.Unlink(k);
    case Count(shrinkOk) => t.CountRemoval(shrinkOk);
  }

  // A node is hashed only while it is not in the table, and only a removal that has happened is counted.
  ghost predicate Proper<K>(run: seq<Op<K>>) {
    forall i :: 0 <= i < |run| ==>
      && (run[i].Put? ==> run[i].k !in Plain(run[..i]))
      && (run[i].Count? ==> Uncounted(run[..i]) > 0)
  }

  // After every run, whatever was split, merged, grown, shrunk or failed to reallocate, a lookup finds
  // exactly what a plain set holds.
  method Replay<K(!new, ==)>(hash: K -> nat, run: seq<Op<K>>, probe: K) returns (found: bool)
    requires Proper(run)
    ensures found <==> probe in Plain(run)
  {
    hide Holds, TableSize, Effect, Change;
    var t := new Table<K>(hash);
    for i := 0 to |run|
      invariant t.Valid() && t.keys == Plain(run[..i]) && t.pending == Uncounted(run[..i]) && fresh(t) &&
        fresh(t.buckets)
    {
      RunStep(run, i);
      Apply(t, run[i]);
    }
    assert run[..|run|] == run;
    found := t.Find(probe);
  }

  // The two tables.
  method ReplayIds(run: seq<Op<nat>>, ino: nat) returns (found: bool)
    requires Proper(run)
    ensures found <==> ino in Plain(run)
  {
    found := Replay(IdHash, run, ino);
  }

  method ReplayNames(run: seq<Op<(nat, seq<nat>)>>, parent: nat, name: seq<nat>) returns (found: bool)
    requires Proper(run)
    ensures found <==> (parent, name) in Plain(run)
  {
    found := Replay(NameHash, run, (parent, name));
  }

  // ------------------------------------------------------------------ node ids

  const ID_SPAN: nat := 0x1_0000_0000
  const FUSE_UNKNOWN_INO: nat := 0xffff_ffff

  // The position of (generation, ctr) in the sequence of ids ever handed out.
  function Stamp(generation: nat, ctr: nat): nat {
    generation * ID_SPAN + ctr
  }

  // `next_id`: the counter wraps at 32 bits and steps the generation; ids in use are skipped.  `free` is
  // any id not in use.
  method NextId(t: Table<nat>, ctr0: nat, generation0: nat, ghost free: nat) returns (ctr: nat, generation: nat)
    requires t.Valid() && ctr0 < ID_SPAN && 0 < free < FUSE_UNKNOWN_INO && free !in t.keys
    ensures 0 < ctr < FUSE_UNKNOWN_INO && ctr !in t.keys
    ensures Stamp(generation0, ctr0) < Stamp(generation, ctr) <= Stamp(generation0, ctr0) + ID_SPAN
  {
    hide Holds, TableSize;
    ctr, generation := ctr0, generation0;
    ghost var goal := Stamp(generation0 + (if ctr0 < free then 0 else 1), free);
    var again := true;
    while again
      invariant ctr < ID_SPAN && Stamp(generation0, ctr0) <= Stamp(generation, ctr) <= goal
      invariant !again ==> 0 < ctr < FUSE_UNKNOWN_INO && ctr !in t.keys
      invariant !again ==> Stamp(generation0, ctr0) < Stamp(generation, ctr)
      invariant again ==> Stamp(generation, ctr) < goal
      decreases again, goal - Stamp(generation, ctr)
    {
      ctr := (ctr + 1) % ID_SPAN;
      if ctr == 0 {
        generation := generation + 1;
      }
      var used := t.Find(ctr);
      again := ctr == 0 || ctr == FUSE_UNKNOWN_INO || used;
    }
  }
}
