/** The queue of requests waiting for paths (`lockq`), as steps on the node tree and the queue together. */
module QueueSteps {
  import opened Common
  import opened NodeTree
  import opened NodeSteps
  import opened FuseNodes

  // One path of a request: a directory, a name in it, and whether that entry is to be write-locked.
  datatype Ask = Ask(dir: Id, nm: Option<string>, write: bool)

  // What a queued request waits for: its paths, or a node to be unlocked so that it can be forgotten.
  datatype Want = Paths(first: Ask, second: Option<Ask>) | Forgetting(node: Id, count: nat)

  // `struct lock_queue_element`
  datatype Elem = Elem(id: nat, want: Want, wnode1: Option<Id>, wnode2: Option<Id>,
                       firstLocked: bool, secondLocked: bool, done: bool, err: Err)
  {
    function T1(): Token { Token(id, false) }
    function T2(): Token { Token(id, true) }

    predicate Two() {
      want.Paths? && want.second.Some?
    }

    predicate Full() {
      want.Paths? && firstLocked && (want.second.None? || secondLocked)
    }

    predicate Empty() {
      !firstLocked && !secondLocked
    }
  }

  function Queued(id: nat, want: Want): Elem {
    Elem(id, want, None, None, false, false, false, Ok)
  }

  // The tree, the queue, and the paths that requests under way may hold.
  datatype System = System(tree: State, lockq: seq<Elem>, all: set<Token>)

  // ------------------------------------------------------------------ invariants

  predicate Posed(a: Ask) {
    a.write ==> a.nm.Some?
  }

  // The flags of an element say exactly which of its paths are held.
  ghost predicate ElemOk(e: Elem, holds: map<Token, Hold>) {
    && (e.want.Paths? ==> Posed(e.want.first) && (e.want.second.Some? ==> Posed(e.want.second.value)))
    && (e.firstLocked <==> e.T1() in holds) && (e.secondLocked <==> e.T2() in holds)
    && (e.firstLocked ==> e.want.Paths? && holds[e.T1()].dir == e.want.first.dir && holds[e.T1()].wnode == e.wnode1)
    && (e.secondLocked ==> e.Two() && holds[e.T2()].dir == e.want.second.value.dir && holds[e.T2()].wnode == e.wnode2)
  }

  // Between wake-ups a request has all its paths iff it is done without an error.
  predicate Settled(e: Elem) {
    (e.Full() <==> e.done && e.err == Ok) && (e.want.Forgetting? ==> !e.done)
  }

  ghost predicate Ids(q: seq<Elem>) {
    forall i, j :: 0 <= i < j < |q| ==> q[i].id != q[j].id
  }

  // Only the head of the queue may hold one of its two paths without the other.
  ghost predicate AllOrNothing(q: seq<Elem>) {
    forall i :: 0 < i < |q| ==> q[i].Full() || q[i].Empty()
  }

  ghost predicate QueueOk(q: seq<Elem>, holds: map<Token, Hold>) {
    Ids(q) && AllOrNothing(q) && forall i :: 0 <= i < |q| ==> ElemOk(q[i], holds) && Settled(q[i])
  }

  // Few enough requests for the reader counts.
  ghost predicate Budget(all: set<Token>, holds: map<Token, Hold>) {
    |all| < INT_MAX - 1 && holds.Keys <= all
  }

  ghost predicate Counted(e: Elem, all: set<Token>) {
    e.T1() in all && e.T2() in all
  }

  ghost predicate KernelAsks(s: State, a: Ask) {
    KernelHolds(s, a.dir, Key(a.nm), a.write)
  }

  // The kernel keeps its references for as long as a request waits.
  ghost predicate KernelWaits(s: State, e: Elem) {
    match e.want
    case Paths(first, second) => KernelAsks(s, first) && (second.Some? ==> KernelAsks(s, second.value))
    case Forgetting(n, k) => n != ROOT && n in s.lock && n in s.nlookup && 0 < s.nlookup[n] && k <= s.nlookup[n]
  }

  ghost predicate Waits(s: State, q: seq<Elem>, all: set<Token>) {
    forall i :: 0 <= i < |q| ==> KernelWaits(s, q[i]) && Counted(q[i], all)
  }

  ghost predicate Valid(x: System) {
    && Inv(x.tree) && QueueOk(x.lockq, x.tree.holds) && Budget(x.all, x.tree.holds)
    && Waits(x.tree, x.lockq, x.all)
  }

  // Nothing but the paths of request `id` has changed.
  ghost predicate SameBut(holds: map<Token, Hold>, holds': map<Token, Hold>, id: nat) {
    forall t: Token :: t.request != id ==> (t in holds <==> t in holds') && (t in holds ==> holds'[t] == holds[t])
  }

  // Only lock words and the paths of request `id` have changed.
  ghost predicate Frame(s: State, s': State, id: nat) {
    s' == s.(lock := s'.lock, holds := s'.holds) && s'.lock.Keys == s.lock.Keys && SameBut(s.holds, s'.holds, id)
  }

  lemma FrameTrans(a: State, b: State, c: State, id: nat)
    requires Frame(a, b, id) && Frame(b, c, id)
    ensures Frame(a, c, id)
  {
  }

  lemma FrameRefl(a: State, id: nat)
    ensures Frame(a, a, id)
  {
  }

  lemma WaitsFrame(s: State, s': State, e: Elem, e': Elem)
    requires KernelWaits(s, e) && e'.want == e.want
    requires s'.nlookup == s.nlookup && s'.entry == s.entry && s'.lock.Keys == s.lock.Keys
    ensures KernelWaits(s', e')
  {
  }

  // ------------------------------------------------------------------ one element's turn

  // An element in a state where it can have its turn.
  ghost predicate Fit(s: State, e: Elem, all: set<Token>) {
    Inv(s) && ElemOk(e, s.holds) && KernelWaits(s, e) && Budget(all, s.holds) && Counted(e, all)
  }

  lemma Room(holds: map<Token, Hold>, all: set<Token>, t: Token)
    requires Budget(all, holds) && t in all && t !in holds
    ensures |holds| < INT_MAX - 1
  {
    SubsetSize(holds.Keys + {t}, all);
  }

  // One attempt at a path.
  ghost function TryAsk(s: State, t: Token, a: Ask, m: Memory): (r: (State, Err))
    requires Inv(s) && t !in s.holds && |s.holds| < INT_MAX - 1 && KernelAsks(s, a)
    ensures Inv(r.0) && r.0 == s.(lock := r.0.lock, holds := r.0.holds) && r.0.lock.Keys == s.lock.Keys
    ensures r.1 == Ok ==>
      r.0.holds.Keys == s.holds.Keys + {t} && r.0.holds - {t} == s.holds && r.0.holds[t].dir == a.dir
    ensures r.1 != Ok ==> r.0.holds == s.holds
    ensures r.1 != EBUSY
  {
    hide Inv, KernelHolds, TryFor;
    TryFor(s, t, a.dir, Key(a.nm), a.write, m)
  }

  lemma AddedOne(a: map<Token, Hold>, b: map<Token, Hold>, t: Token)
    requires b.Keys == a.Keys + {t} && b - {t} == a && t !in a
    ensures SameBut(a, b, t.request)
    ensures forall u :: u in b <==> u in a || u == t
    ensures forall u :: u in a ==> u in b && b[u] == a[u]
  {
    assert forall u :: u in b && u != t ==> u in b - {t} && (b - {t})[u] == b[u];
  }

  // The attempt at the first path.
  ghost function First(s: State, e: Elem, m: Memory, all: set<Token>): (r: (State, Elem, Err))
    requires Fit(s, e, all) && e.want.Paths?
    ensures Fit(r.0, r.1, all) && Frame(s, r.0, e.id)
    ensures r.1 == e.(wnode1 := r.1.wnode1, firstLocked := r.2 == Ok)
    ensures e.firstLocked ==> r == (s, e, Ok)
  {
    hide Inv, KernelHolds, TryAsk;
    if e.firstLocked then
      FrameRefl(s, e.id);
      (s, e, Ok)
    else
      Room(s.holds, all, e.T1());
      var (s1, err) := TryAsk(s, e.T1(), e.want.first, m);
      if err == Ok then
        AddedOne(s.holds, s1.holds, e.T1());
        var e1 := e.(firstLocked := true, wnode1 := s1.holds[e.T1()].wnode);
        WaitsFrame(s, s1, e, e1);
        (s1, e1, Ok)
      else
        WaitsFrame(s, s1, e, e);
        (s1, e, err)
  }

  // The attempt at the second path, if there is one to be had.
  ghost function Second(s: State, e: Elem, m: Memory, all: set<Token>): (r: (State, Elem, Err))
    requires Fit(s, e, all) && e.want.Paths?
    ensures Fit(r.0, r.1, all) && Frame(s, r.0, e.id)
    ensures r.1 == e.(wnode2 := r.1.wnode2, secondLocked := e.Two() && r.2 == Ok)
    ensures !e.Two() || e.secondLocked ==> r == (s, e, Ok)
  {
    hide Inv, KernelHolds, TryAsk;
    if !e.Two() || e.secondLocked then
      FrameRefl(s, e.id);
      (s, e, Ok)
    else
      Room(s.holds, all, e.T2());
      var (s1, err) := TryAsk(s, e.T2(), e.want.second.value, m);
      if err == Ok then
        AddedOne(s.holds, s1.holds, e.T2());
        var e1 := e.(secondLocked := true, wnode2 := s1.holds[e.T2()].wnode);
        WaitsFrame(s, s1, e, e1);
        (s1, e1, Ok)
      else
        WaitsFrame(s, s1, e, e);
        (s1, e, err)
  }

  // `queue_element_unlock`
  ghost function GiveBack(s: State, e: Elem, all: set<Token>): (r: (State, Elem))
    requires Fit(s, e, all)
    ensures Fit(r.0, r.1, all) && Frame(s, r.0, e.id) && r.1 == e.(firstLocked := false, secondLocked := false)
  {
    hide Inv, KernelHolds, Freed;
    var s1 := if e.firstLocked then (ReleaseKeepsInv(s, e.T1()); Release(s, e.T1())) else s;
    var s2 := if e.secondLocked then (ReleaseKeepsInv(s1, e.T2()); Release(s1, e.T2())) else s1;
    var e2 := e.(firstLocked := false, secondLocked := false);
    GivenBack(s, s1, s2, e);
    WaitsFrame(s, s2, e, e2);
    (s2, e2)
  }

  lemma GivenBack(s: State, s1: State, s2: State, e: Elem)
    requires ElemOk(e, s.holds)
    requires s1 == if e.firstLocked then Release(s, e.T1()) else s
    requires e.secondLocked ==> e.T2() in s1.holds
    requires s2 == if e.secondLocked then Release(s1, e.T2()) else s1
    ensures Frame(s, s2, e.id) && s2.holds.Keys <= s.holds.Keys && e.T1() !in s2.holds && e.T2() !in s2.holds
  {
    assert s1.lock.Keys == s.lock.Keys && s2.lock.Keys == s1.lock.Keys;
  }

  predicate Hard(err: Err) {
    err != Ok && err != EAGAIN
  }

  // `queue_element_wakeup`.  `head` says that the element is the first of the queue.
  ghost function Wake(s: State, e: Elem, head: bool, luck: Luck, all: set<Token>): (r: (State, Elem))
    requires Fit(s, e, all) && Settled(e)
    ensures Fit(r.0, r.1, all) && Frame(s, r.0, e.id) && Settled(r.1)
    ensures r.1.id == e.id && r.1.want == e.want && (head || e.want.Forgetting? || r.1.Full() || r.1.Empty())
  {
    hide Fit, Frame, First, Second, GiveBack;
    if e.want.Forgetting? then
      FrameRefl(s, e.id);
      (s, e)
    else
      var (s1, e1, err1) := First(s, e, luck.first, all);
      if Hard(err1) then
        Abort(s, s1, e1, err1, all)
      else
        var (s2, e2, err2) := Second(s1, e1, luck.second, all);
        FrameTrans(s, s1, s2, e.id);
        if Hard(err2) then
          Abort(s, s2, e2, err2, all)
        else if e2.Full() then
          FitMarked(s2, e2, e2.(done := true, err := Ok), all);
          (s2, e2.(done := true, err := Ok))
        else if head then (s2, e2)
        else
          var r := GiveBack(s2, e2, all);
          FrameTrans(s, s2, r.0, e.id);
          r
  }

  ghost function Abort(s0: State, s: State, e: Elem, err: Err, all: set<Token>): (r: (State, Elem))
    requires Fit(s, e, all) && Frame(s0, s, e.id) && Hard(err) && e.want.Paths?
    ensures Fit(r.0, r.1, all) && Frame(s0, r.0, e.id)
    ensures r.1 == e.(firstLocked := false, secondLocked := false, done := true, err := err)
  {
    hide Fit, Frame, GiveBack;
    var (s', e') := GiveBack(s, e, all);
    FrameTrans(s0, s, s', e.id);
    FitMarked(s', e', e'.(done := true, err := err), all);
    (s', e'.(done := true, err := err))
  }

  lemma FitMarked(s: State, e: Elem, e': Elem, all: set<Token>)
    requires Fit(s, e, all) && e' == e.(done := e'.done, err := e'.err)
    ensures Fit(s, e', all)
  {
    hide Inv, KernelHolds;
    WaitsFrame(s, s, e, e');
  }

  // ------------------------------------------------------------------ the queue's turns

  lemma ElemFrame(e: Elem, holds: map<Token, Hold>, holds': map<Token, Hold>, id: nat)
    requires ElemOk(e, holds) && SameBut(holds, holds', id) && e.id != id
    ensures ElemOk(e, holds')
  {
    assert e.T1().request != id && e.T2().request != id;
  }

  lemma QueueUpdate(q: seq<Elem>, i: nat, e: Elem, holds: map<Token, Hold>, holds': map<Token, Hold>)
    requires QueueOk(q, holds) && i < |q| && e.id == q[i].id && ElemOk(e, holds') && Settled(e)
    requires SameBut(holds, holds', e.id) && (i > 0 ==> e.Full() || e.Empty())
    ensures QueueOk(q[i := e], holds')
  {
    hide ElemOk, SameBut;
    forall j | 0 <= j < |q| && j != i
      ensures ElemOk(q[j], holds')
    {
      ElemFrame(q[j], holds, holds', e.id);
    }
  }

  lemma WaitsUpdate(s: State, s': State, q: seq<Elem>, i: nat, e: Elem, all: set<Token>)
    requires Waits(s, q, all) && i < |q| && e.id == q[i].id && e.want == q[i].want
    requires s'.nlookup == s.nlookup && s'.entry == s.entry && s'.lock.Keys == s.lock.Keys
    ensures Waits(s', q[i := e], all)
  {
    hide KernelWaits;
    var r := q[i := e];
    forall j | 0 <= j < |r|
      ensures KernelWaits(s', r[j]) && Counted(r[j], all)
    {
      WaitsFrame(s, s', q[j], r[j]);
    }
  }

  lemma FitAt(x: System, i: nat)
    requires Valid(x) && i < |x.lockq|
    ensures Fit(x.tree, x.lockq[i], x.all) && Settled(x.lockq[i])
  {
    hide Inv, ElemOk, KernelWaits;
  }

  lemma FitParts(s: State, e: Elem, all: set<Token>)
    requires Fit(s, e, all)
    ensures Inv(s) && ElemOk(e, s.holds) && Budget(all, s.holds)
  {
    hide Inv, ElemOk;
  }

  lemma ForgetterEmpty(e: Elem, holds: map<Token, Hold>)
    requires ElemOk(e, holds)
    ensures e.want.Forgetting? ==> e.Empty()
  {
  }

  // The same requests wait for the same things, in the same tree.
  ghost predicate Kept(x: System, x': System) {
    && x'.all == x.all && |x'.lockq| == |x.lockq|
    && (forall j :: 0 <= j < |x.lockq| ==> x'.lockq[j].id == x.lockq[j].id && x'.lockq[j].want == x.lockq[j].want)
    && x'.tree == x.tree.(lock := x'.tree.lock, holds := x'.tree.holds) && x'.tree.lock.Keys == x.tree.lock.Keys
  }

  lemma KeptTrans(x: System, y: System, z: System)
    requires Kept(x, y) && Kept(y, z)
    ensures Kept(x, z)
  {
  }

  lemma KeptRefl(x: System)
    ensures Kept(x, x)
  {
  }

  lemma KeptSize(x: System, y: System)
    requires Kept(x, y)
    ensures |y.lockq| == |x.lockq|
  {
  }

  lemma TurnKeeps(x: System, i: nat, s: State, e: Elem)
    requires Valid(x) && i < |x.lockq| && Fit(s, e, x.all) && Settled(e) && Frame(x.tree, s, e.id)
    requires e.id == x.lockq[i].id && e.want == x.lockq[i].want &&
      (i == 0 || e.want.Forgetting? || e.Full() || e.Empty())
    ensures Valid(x.(tree := s, lockq := x.lockq[i := e])) && Kept(x, x.(tree := s, lockq := x.lockq[i := e]))
  {
    hide Inv, QueueOk, Waits, Fit, ElemOk, SameBut, Settled, Budget;
    FitParts(s, e, x.all);
    ForgetterEmpty(e, s.holds);
    QueueUpdate(x.lockq, i, e, x.tree.holds, s.holds);
    WaitsUpdate(x.tree, s, x.lockq, i, e, x.all);
  }

  // The turn of element `i`.
  ghost function Turn(x: System, i: nat, luck: Luck): (x': System)
    requires Valid(x) && i < |x.lockq|
    ensures Valid(x') && Kept(x, x')
  {
    hide Valid, Kept, Fit, Wake, Frame, Settled;
    FitAt(x, i);
    var (s, e) := Wake(x.tree, x.lockq[i], i == 0, luck, x.all);
    TurnKeeps(x, i, s, e);
    x.(tree := s, lockq := x.lockq[i := e])
  }

  // `wake_up_queued`, from element `i` on.
  ghost function WakeAll(x: System, i: nat, luck: nat -> Luck): (x': System)
    requires Valid(x) && i <= |x.lockq|
    ensures Valid(x') && Kept(x, x')
    decreases |x.lockq| - i
  {
    hide Valid, Turn, Kept;
    if i == |x.lockq| then
      KeptRefl(x);
      x
    else
      var y := Turn(x, i, luck(i));
      KeptSize(x, y);
      var z := WakeAll(y, i + 1, luck);
      KeptTrans(x, y, z);
      z
  }
}
