/** The imperative code of the queue (`lockq`), each operation proved to perform its step of QueueSteps and
    QueueRuns. */
module LockQueue {
  import opened Common
  import opened NodeTree
  import opened NodeSteps
  import opened FuseNodes
  import opened QueueSteps
  import QueueRuns

  class PathQueue {
    const fs: Fuse
    var lockq: seq<Elem>
    ghost var all: set<Token>

    ghost function Sys(): System
      reads this, fs
    {
      System(fs.View(), lockq, all)
    }

    constructor (fs: Fuse)
      requires Inv(fs.View()) && fs.holds == map[]
      ensures this.fs == fs && Sys() == System(fs.View(), [], {}) && Valid(Sys())
    {
      this.fs := fs;
      lockq, all := [], {};
    }

    // ---------------------------------------------------------------- one element

    // One attempt at one path.
    method Attempt(ghost t: Token, a: Ask, memory: Memory) returns (err: Err, w: Option<Id>)
      requires Inv(fs.View()) && t !in fs.holds && |fs.holds| < INT_MAX - 1 && Posed(a) && KernelAsks(fs.View(), a)
      modifies fs`treelock, fs`holds
      ensures (fs.View(), err) == TryAsk(old(fs.View()), t, a, memory)
      ensures err == Ok ==> t in fs.holds && fs.holds[t].wnode == w
    {
      hide TreeInv, TryWith, KernelHolds;
      KernelDir(fs.View(), a.dir, Key(a.nm), a.write);
      var path;
      err, path, w := fs.TryGetPath(t, a.dir, a.nm, a.write, memory);
    }

    // `queue_element_unlock`
    method Unlock(e: Elem) returns (e': Elem)
      requires Fit(fs.View(), e, all)
      modifies fs`treelock, fs`holds
      ensures (fs.View(), e') == GiveBack(old(fs.View()), e, all)
    {
      hide Inv, KernelHolds, Freed;
      e' := e;
      if e.firstLocked {
        fs.FreePath(e.T1(), e.want.first.dir, e.wnode1);
        e' := e'.(firstLocked := false);
      }
      if e.secondLocked {
        fs.FreePath(e.T2(), e.want.second.value.dir, e.wnode2);
        e' := e'.(secondLocked := false);
      }
    }

    method TryFirst(e0: Elem, memory: Memory) returns (e: Elem, err: Err)
      requires Fit(fs.View(), e0, all) && e0.want.Paths?
      modifies fs`treelock, fs`holds
      ensures (fs.View(), e, err) == First(old(fs.View()), e0, memory, all)
    {
      hide Inv, KernelHolds, TryAsk;
      e, err := e0, Ok;
      if !e.firstLocked {
        Room(fs.holds, all, e.T1());
        var w;
        err, w := Attempt(e.T1(), e.want.first, memory);
        if err == Ok {
          e := e.(firstLocked := true, wnode1 := w);
        }
      }
    }

    method TrySecond(e0: Elem, memory: Memory) returns (e: Elem, err: Err)
      requires Fit(fs.View(), e0, all) && e0.want.Paths?
      modifies fs`treelock, fs`holds
      ensures (fs.View(), e, err) == Second(old(fs.View()), e0, memory, all)
    {
      hide Inv, KernelHolds, TryAsk;
      e, err := e0, Ok;
      if !e.secondLocked && e.want.second.Some? {
        Room(fs.holds, all, e.T2());
        var w;
        err, w := Attempt(e.T2(), e.want.second.value, memory);
        if err == Ok {
          e := e.(secondLocked := true, wnode2 := w);
        }
      }
    }

    // `queue_element_wakeup`
    method Wakeup(e0: Elem, head: bool, luck: Luck) returns (e: Elem)
      requires Fit(fs.View(), e0, all) && Settled(e0)
      modifies fs`treelock, fs`holds
      ensures (fs.View(), e) == Wake(old(fs.View()), e0, head, luck, all)
    {
      hide Fit, Frame, First, Second, GiveBack;
      e := e0;
      if e.want.Forgetting? {
        return;
      }
      var err;
      e, err := TryFirst(e, luck.first);
      if err == Ok || err == EAGAIN {
        e, err := TrySecond(e, luck.second);
      }
      if err != Ok && err != EAGAIN {
        e := Unlock(e);
        e := e.(err := err, done := true);
      } else if e.Full() {
        e := e.(err := Ok, done := true);
      } else if !head {
        e := Unlock(e);
      }
    }

    // ---------------------------------------------------------------- the queue

    // `wake_up_queued`
    method WakeUpQueued(luck: nat -> Luck)
      requires Valid(Sys())
      modifies this`lockq, fs`treelock, fs`holds
      ensures Sys() == WakeAll(old(Sys()), 0, luck) && Valid(Sys())
    {
      hide Valid, Turn, Fit, Wake, Settled;
      for i := 0 to |lockq|
        invariant |lockq| == |old(lockq)| && Valid(Sys()) && all == old(all)
        invariant WakeAll(Sys(), i, luck) == WakeAll(old(Sys()), 0, luck)
      {
        ghost var x := Sys();
        FitAt(x, i);
        var e := Wakeup(lockq[i], i == 0, luck(i));
        TurnIs(x, i, luck(i));
        KeptSize(x, Turn(x, i, luck(i)));
        lockq := lockq[i := e];
      }
    }

    // `get_path_common`, up to the wait: EAGAIN says that the request is queued.
    method GetPath(id: nat, a: Ask, memory: Memory) returns (err: Err)
      requires Valid(Sys()) && QueueRuns.Unknown(Sys(), id) && Posed(a) && KernelAsks(fs.View(), a)
      modifies this, fs`treelock, fs`holds
      ensures Valid(Sys()) && Sys() == QueueRuns.GetPath(old(Sys()), id, a, memory)
      ensures err == QueueRuns.GetError(old(Sys()), id, a, memory)
      ensures err == Ok <==> Token(id, false) in fs.holds
      ensures err == EAGAIN <==> |lockq| == |old(lockq)| + 1
      ensures err != EAGAIN ==> lockq == old(lockq)
    {
      hide Inv, QueueOk, Waits, KernelHolds, TryAsk, Budget;
      ghost var x := Sys();
      QueueRuns.UnknownIds(x, id);
      var w;
      err, w := Attempt(Token(id, false), a, memory);
      Settle(id, err, Paths(a, None));
      assert Sys() == QueueRuns.GetPath(x, id, a, memory);
    }

    // `get_path2`, up to the wait
    method GetPath2(id: nat, a: Ask, b: Ask, luck: Luck) returns (err: Err)
      requires Valid(Sys()) && QueueRuns.Unknown(Sys(), id)
      requires Posed(a) && Posed(b) && KernelAsks(fs.View(), a) && KernelAsks(fs.View(), b)
      modifies this, fs`treelock, fs`holds
      ensures Valid(Sys()) && Sys() == QueueRuns.GetPath2(old(Sys()), id, a, b, luck)
      ensures err == QueueRuns.GetError2(old(Sys()), id, a, b, luck)
      ensures err == Ok <==> Token(id, false) in fs.holds && Token(id, true) in fs.holds
      ensures err == EAGAIN <==> |lockq| == |old(lockq)| + 1
      ensures err != EAGAIN ==> lockq == old(lockq)
    {
      hide Inv, QueueOk, Waits, KernelHolds, TryBoth, Budget;
      ghost var x := Sys();
      QueueRuns.UnknownIds(x, id);
      var path1, path2, w1, w2;
      err, path1, path2, w1, w2 := fs.TryGetPath2(Token(id, false), a.dir, a.nm, a.write, Token(id, true), b.dir,
        b.nm, b.write,
        luck);
      Settle(id, err, Paths(a, Some(b)));
      assert Sys() == QueueRuns.GetPath2(x, id, a, b, luck);
    }

    // A request gets its paths, waits or fails.
    method Settle(id: nat, err: Err, want: Want)
      modifies this`lockq, this`all
      ensures Sys() == QueueRuns.Outcome(old(Sys()), id, fs.View(), err, want)
    {
      if err == EAGAIN {
        lockq := lockq + [Queued(id, want)];
      }
      if err == Ok || err == EAGAIN {
        all := all + {Token(id, false), Token(id, true)};
      }
    }

    // `free_path_wrlock`
    method FreePath(id: nat, nodeid: Id, wnode: Option<Id>, luck: nat -> Luck)
      requires Valid(Sys()) && QueueRuns.NotWaiting(lockq, id)
      requires Token(id, false) in fs.holds && Token(id, true) !in fs.holds
      requires fs.holds[Token(id, false)].dir == nodeid && fs.holds[Token(id, false)].wnode == wnode
      modifies this, fs`treelock, fs`holds
      ensures Valid(Sys()) && Sys() == QueueRuns.FreePath(old(Sys()), id, luck)
    {
      hide Inv, QueueOk, Waits, WakeAll, Freed, Budget;
      ghost var x := Sys();
      fs.FreePath(Token(id, false), nodeid, wnode);
      all := all - {Token(id, false), Token(id, true)};
      assert Sys() == QueueRuns.GivenUp(x, id);
      WakeUpQueued(luck);
    }

    // `free_path2`
    method FreePath2(id: nat, nodeid1: Id, wnode1: Option<Id>, nodeid2: Id, wnode2: Option<Id>, luck: nat -> Luck)
      requires Valid(Sys()) && QueueRuns.NotWaiting(lockq, id)
      requires Token(id, false) in fs.holds && Token(id, true) in fs.holds
      requires fs.holds[Token(id, false)].dir == nodeid1 && fs.holds[Token(id, false)].wnode == wnode1
      requires fs.holds[Token(id, true)].dir == nodeid2 && fs.holds[Token(id, true)].wnode == wnode2
      modifies this, fs`treelock, fs`holds
      ensures Valid(Sys()) && Sys() == QueueRuns.FreePath2(old(Sys()), id, luck)
    {
      hide Inv, QueueOk, Waits, WakeAll, Freed, Budget;
      ghost var x := Sys();
      fs.FreePath(Token(id, false), nodeid1, wnode1);
      fs.FreePath(Token(id, true), nodeid2, wnode2);
      all := all - {Token(id, false), Token(id, true)};
      assert Sys() == QueueRuns.GivenUp2(x, id);
      WakeUpQueued(luck);
    }

    // The end of `wait_path`
    method WaitPath(i: nat) returns (err: Err)
      requires Valid(Sys()) && i < |lockq| && lockq[i].done
      modifies this`lockq, this`all
      ensures Valid(Sys()) && Sys() == QueueRuns.WaitPath(old(Sys()), i)
      ensures err == old(lockq)[i].err
    {
      hide Inv, QueueOk, Waits, Budget;
      ghost var x := Sys();
      var e := lockq[i];
      err := e.err;
      lockq := lockq[..i] + lockq[i + 1..];
      all := if err == Ok then all else all - ({e.T1(), e.T2()} - fs.holds.Keys);
      assert Sys() == QueueRuns.WaitPath(x, i);
    }

    // `forget_node`, up to the wait
    method ForgetNode(id: nat, nodeid: Id, k: nat) returns (waits: bool)
      requires Valid(Sys()) && QueueRuns.Unknown(Sys(), id)
      requires nodeid != ROOT ==> KernelWaits(fs.View(), Queued(id, Forgetting(nodeid, k)))
      requires nodeid != ROOT && !QueueRuns.MustWait(fs.View(), nodeid, k) ==> QueueRuns.MayForgetNow(Sys(), nodeid, k)
      modifies this, fs
      ensures Valid(Sys()) && Sys() == QueueRuns.ForgetNode(old(Sys()), id, nodeid, k)
      ensures waits <==> |lockq| == |old(lockq)| + 1
    {
      hide Inv, QueueOk, Waits, Forget, Budget;
      ghost var x := Sys();
      waits := false;
      if nodeid == ROOT {
        return;
      }
      if fs.nlookup[nodeid] == k && fs.treelock[nodeid] != 0 {
        Settle(id, EAGAIN, Forgetting(nodeid, k));
        waits := true;
      } else {
        fs.ForgetNode(nodeid, k);
      }
      assert Sys() == QueueRuns.ForgetNode(x, id, nodeid, k);
    }

    // The rest of `forget_node` for a request that has waited
    method ForgetWoken(i: nat)
      requires Valid(Sys()) && i < |lockq| && lockq[i].want.Forgetting?
      requires QueueRuns.MayForgetNow(Sys().(lockq := Without(lockq, i)), lockq[i].want.node, lockq[i].want.count)
      modifies this`lockq, fs
      ensures Valid(Sys()) && Sys() == QueueRuns.ForgetWoken(old(Sys()), i)
    {
      hide Inv, QueueOk, Waits, Forget, Budget;
      ghost var x := Sys();
      var e := lockq[i];
      QueueRuns.Dequeue(x, i);
      lockq := lockq[..i] + lockq[i + 1..];
      fs.ForgetNode(e.want.node, e.want.count);
      assert Sys() == QueueRuns.ForgetWoken(x, i);
    }
  }

  lemma TurnIs(x: System, i: nat, luck: Luck)
    requires Valid(x) && i < |x.lockq|
    ensures Fit(x.tree, x.lockq[i], x.all) && Settled(x.lockq[i])
    ensures var (s, e) := Wake(x.tree, x.lockq[i], i == 0, luck, x.all);
            Turn(x, i, luck) == x.(tree := s, lockq := x.lockq[i := e])
  {
    hide Valid, Fit, Wake, Settled;
    FitAt(x, i);
  }
}
