/** The registry object a connection holds: one sender registers through the channel, one
    receiver drains it, looks tasks up, expires them and cleans up. */
module Timer {
  import opened Prelude
  import opened Registry

  class ClientTaskTimer {
    const capacity: nat
    const taskTimeout: nat
    var pendingTasks: seq<Item>
    var pendingTaskCount: int
    var sentTasks: Batch
    var delayTasksQueue: seq<Batch>
    var minDelaySeq: nat
    var processedSeq: nat
    var regStopped: bool
    /** Calls of error_handle, by the error set beforehand. */
    var timedOut: multiset<nat>
    var cleaned: multiset<nat>

    function View(): State
      reads this
    {
      State(pendingTasks, pendingTaskCount, sentTasks, delayTasksQueue, minDelaySeq, taskTimeout,
               processedSeq, regStopped, timedOut, cleaned)
    }

    constructor (timeout: nat, thresholds: nat)
      ensures View() == Initial(timeout) && Wf(View())
      ensures capacity == 2 * (if thresholds == 0 then 500 else thresholds)
    {
      capacity := 2 * (if thresholds == 0 then 500 else thresholds);
      taskTimeout := timeout;
      pendingTasks, pendingTaskCount := [], 0;
      sentTasks, delayTasksQueue := map[], [];
      minDelaySeq, processedSeq, regStopped := 0, 0, false;
      timedOut, cleaned := multiset{}, multiset{};
    }

    /** The sender's side: waits while the channel is full. */
    method RegTask(it: Item) returns (r: Poll<()>)
      modifies this`pendingTasks
      ensures r.Ready? <==> |old(pendingTasks)| < capacity
      ensures View() == if r.Ready? then Register(old(View()), it) else old(View())
    {
      if |pendingTasks| < capacity {
        pendingTasks := pendingTasks + [it];
        return Ready(());
      }
      r := Pending;
    }

    method StopRegTask()
      modifies this`regStopped
      ensures View() == old(View()).(stopped := true)
    {
      regStopped := true;
    }

    method TryRecv() returns (r: Option<Item>)
      modifies this`pendingTasks
      ensures r == if old(pendingTasks) == [] then None else Some(old(pendingTasks)[0])
      ensures pendingTasks == if old(pendingTasks) == [] then [] else old(pendingTasks)[1..]
    {
      if pendingTasks == [] { return None; }
      r := Some(pendingTasks[0]);
      pendingTasks := pendingTasks[1..];
    }

    method GotPendingTask(it: Item)
      modifies this
      ensures View() == old(View()).(count := old(pendingTaskCount) - 1, processed := it.sn,
                                     sent := old(sentTasks)[it.sn := it])
    {
      pendingTaskCount := pendingTaskCount - 1;
      processedSeq := it.sn;
      sentTasks := sentTasks[it.sn := it];
    }

    /** The drain loop shared by polling, checking and cleaning. */
    method PollSentTask() returns (got: bool)
      modifies this
      ensures View() == Drained(old(View()))
      ensures got <==> old(pendingTasks) != []
    {
      got := false;
      while true
        invariant Drained(View()) == Drained(old(View()))
        invariant got <==> pendingTasks != old(pendingTasks)
        invariant |pendingTasks| <= |old(pendingTasks)|
        decreases |pendingTasks|
      {
        ghost var before := View();
        var r := TryRecv();
        match r {
          case None => break;
          case Some(it) =>
            GotPendingTask(it);
            assert View() == Got(before);
            got := true;
        }
      }
    }

    method CheckPendingTasksEmpty() returns (empty: bool)
      requires Wf(View())
      modifies this
      ensures View() == Drained(old(View())) && Wf(View())
      ensures empty <==> forall q :: Lookup(old(View()), q) == None
    {
      var _ := PollSentTask();
      ghost var d := View();
      DrainedKeeps(old(View()));
      DrainedFields(old(View()));
      if sentTasks != map[] {
        var q :| q in sentTasks;
        assert Lookup(d, q).Some?;
        return false;
      }
      var k := 0;
      while k < |delayTasksQueue|
        invariant k <= |delayTasksQueue| && View() == d
        invariant forall i :: 0 <= i < k ==> delayTasksQueue[i] == map[]
      {
        if delayTasksQueue[k] != map[] {
          var q :| q in delayTasksQueue[k];
          FindFirst(Batches(d), q, k + 1);
          assert Lookup(d, q).Some?;
          return false;
        }
        k := k + 1;
      }
      forall q ensures Lookup(d, q) == None { FindNone(Batches(d), q); }
      return true;
    }

    /** Hands every task of `b` to error_handle with IO, in whatever order the hash map yields. */
    method CleanBatch(b: Batch)
      modifies this`cleaned
      ensures cleaned == old(cleaned) + multiset(b.Keys)
    {
      var done := {};
      while b.Keys - done != {}
        invariant done <= b.Keys
        invariant cleaned == old(cleaned) + multiset(done)
        decreases b.Keys - done
      {
        var q :| q in b.Keys - done;
        done := done + {q};
        cleaned := cleaned + multiset{q};
      }
      assert done == b.Keys;
    }

    method CleanPendingTasks()
      modifies this
      ensures View() == Cleaned(old(View()))
    {
      var _ := PollSentTask();
      CleanDrained();
    }

    method CleanDrained()
      modifies this`sentTasks, this`delayTasksQueue, this`cleaned
      ensures View() == Emptied(old(View()))
    {
      ghost var d := View();
      CleanBatch(sentTasks);
      sentTasks := map[];
      CleanDelay();
      EmptiedIs(d, View());
    }

    method CleanDelay()
      modifies this`delayTasksQueue, this`cleaned
      ensures |delayTasksQueue| == |old(delayTasksQueue)| && AllEmpty(delayTasksQueue)
      ensures cleaned == old(cleaned) + BatchKeys(old(delayTasksQueue))
    {
      ghost var q := delayTasksQueue;
      var k := 0;
      while k < |delayTasksQueue|
        invariant k <= |delayTasksQueue| == |q|
        invariant forall i :: 0 <= i < |q| ==> delayTasksQueue[i] == if i < k then map[] else q[i]
        invariant cleaned == old(cleaned) + BatchKeys(q[..k])
      {
        CleanBatch(delayTasksQueue[k]);
        BatchKeysSnoc(q, k);
        delayTasksQueue := delayTasksQueue[k := map[]];
        k := k + 1;
      }
      assert q[..k] == q;
    }

    /** The lookup in the batches, youngest first. */
    method RemoveTask(q: nat) returns (r: Option<Item>)
      requires Wf(View())
      modifies this`sentTasks, this`delayTasksQueue
      ensures r == Find(Batches(old(View())), q)
      ensures View() == Without(old(View()), q)
    {
      ghost var d := View();
      if q in sentTasks {
        OnlyThere(d, 0, q);
        r := Some(sentTasks[q]);
        sentTasks := sentTasks - {q};
        return;
      }
      var k := 0;
      while k < |delayTasksQueue|
        invariant k <= |delayTasksQueue| && View() == d
        invariant forall i :: 0 <= i < k ==> q !in delayTasksQueue[i]
      {
        if q in delayTasksQueue[k] {
          OnlyThere(d, k + 1, q);
          r := Some(delayTasksQueue[k][q]);
          FindFirst(Batches(d), q, k + 1);
          delayTasksQueue := delayTasksQueue[k := delayTasksQueue[k] - {q}];
          return;
        }
        k := k + 1;
      }
      Nowhere(d, q);
      r := None;
    }

    /** One poll of take_task; `first` is false when the future resumes after Pending.
        The answer is lookup-and-remove on the one map the registry stands for, except when
        registration was stopped while the task still sat in the channel: then it is missed. */
    method TakeTask(q: nat, first: bool) returns (r: Poll<Option<Item>>)
      requires Wf(View())
      modifies this
      ensures Wf(View())
      ensures r.Ready? ==> (r.value == Lookup(old(View()), q)
                            <==> !(old(processedSeq) < q && old(regStopped) && Lookup(old(View()), q).Some?))
      ensures forall x :: Lookup(View(), x) ==
                          if x == q && r.Ready? && r.value.Some? then None else Lookup(old(View()), x)
      ensures r.Pending? ==> Lookup(View(), q) == None && pendingTasks == [] && processedSeq < q && !regStopped
      ensures r.Pending? <==> !old(regStopped) && Drained(old(View())).processed < q
      ensures timedOut == old(timedOut) && cleaned == old(cleaned) && minDelaySeq == old(minDelaySeq)
      ensures Drained(View()).processed == Drained(old(View())).processed && regStopped == old(regStopped)
    {
      ghost var s := View();
      DrainedGrows(s);
      if first && q < minDelaySeq {
        BelowMinDelay(s, q);
        return Ready(None);
      }
      if processedSeq < q {
        if regStopped { return Ready(None); }
        var _ := PollSentTask();
        DrainedKeeps(s);
        DrainedFields(s);
        if processedSeq < q {
          AboveProcessed(View(), q);
          return Pending;
        }
      }
      WithoutKeeps(View(), q);
      FindChannelNone(pendingTasks, q);
      var found := RemoveTask(q);
      DrainedFields(View());
      DrainedFields(s);
      r := Ready(found);
    }

    /** Hands every task of an expired batch to error_handle with Timeout and finds the smallest
        sequence number, in whatever order the hash map yields them. */
    method ExpireBatch(b: Batch) returns (minSeq: nat)
      requires b != map[] && Keyed(b, minDelaySeq, processedSeq)
      modifies this`timedOut
      ensures timedOut == old(timedOut) + multiset(b.Keys)
      ensures IsMinimum(minSeq, b.Keys)
    {
      minSeq := 0;
      var done := {};
      while b.Keys - done != {}
        invariant done <= b.Keys
        invariant MinimumSoFar(minSeq, done)
        invariant timedOut == old(timedOut) + multiset(done)
        decreases b.Keys - done
      {
        var q :| q in b.Keys - done;
        MinimumAdd(minSeq, done, q);
        done := done + {q};
        minSeq := if minSeq == 0 || minSeq > b[q].sn then b[q].sn else minSeq;
        timedOut := timedOut + multiset{q};
      }
      assert done == b.Keys;
    }

    /** One tick. */
    method AdjustTaskQueue()
      requires Wf(View())
      modifies this
      ensures View() == Adjusted(old(View())) && Wf(View())
      ensures |delayTasksQueue| <= taskTimeout && old(minDelaySeq) <= minDelaySeq
    {
      ghost var s := View();
      AdjustedKeeps(s);
      var batch := sentTasks;
      sentTasks := map[];
      delayTasksQueue := [batch] + delayTasksQueue;
      if |delayTasksQueue| > taskTimeout {
        var last := delayTasksQueue[|delayTasksQueue| - 1];
        delayTasksQueue := delayTasksQueue[..|delayTasksQueue| - 1];
        assert last == Batches(s)[|s.delay|];
        if last != map[] {
          assert Keyed(last, minDelaySeq, processedSeq);
          minDelaySeq := ExpireBatch(last);
        }
      }
    }
  }

  // ---------- Small facts the methods use ----------

  /** The shortcut never rejects a live task. */
  lemma BelowMinDelay(s: State, q: nat)
    requires Wf(s) && q <= s.minDelay
    ensures Lookup(s, q) == None
  {
    assert forall k :: 0 <= k < |Batches(s)| ==> Keyed(Batches(s)[k], s.minDelay, s.processed);
    FindChannelNone(s.chan, q);
    FindNone(Batches(s), q);
  }

  lemma DrainedGrows(s: State)
    requires Wf(s)
    ensures s.processed <= Drained(s).processed
  {
    DrainedFields(s);
  }

  lemma AboveProcessed(s: State, q: nat)
    requires Wf(s) && s.chan == [] && s.processed < q
    ensures Lookup(s, q) == None
  {
    assert forall k :: 0 <= k < |Batches(s)| ==> Keyed(Batches(s)[k], s.minDelay, s.processed);
    FindNone(Batches(s), q);
  }

  lemma Nowhere(s: State, q: nat)
    requires q !in s.sent && forall i :: 0 <= i < |s.delay| ==> q !in s.delay[i]
    ensures Find(Batches(s), q) == None && Without(s, q) == s
  {
    FindNone(Batches(s), q);
    assert s.sent - {q} == s.sent;
    forall i | 0 <= i < |s.delay| ensures s.delay[i] - {q} == s.delay[i] {
    }
    assert Without(s, q).delay == s.delay;
  }

  /** Removing `q` from the one batch that holds it forgets it everywhere. */
  lemma OnlyThere(s: State, k: nat, q: nat)
    requires Wf(s) && k < |Batches(s)| && q in Batches(s)[k]
    ensures Without(s, q) == if k == 0 then s.(sent := s.sent - {q})
                             else s.(delay := s.delay[k - 1 := s.delay[k - 1] - {q}])
  {
    forall i | 0 <= i < |Batches(s)| && i != k ensures Batches(s)[i] - {q} == Batches(s)[i] {
      assert i < k ==> Above(Batches(s)[i], Batches(s)[k]);
      assert k < i ==> Above(Batches(s)[k], Batches(s)[i]);
    }
    forall i | 0 <= i < |s.delay| && i + 1 != k ensures s.delay[i] - {q} == s.delay[i] {
      assert Batches(s)[i + 1] == s.delay[i];
    }
    if k == 0 {
      assert Without(s, q).delay == s.delay;
    } else {
      assert s.sent == Batches(s)[0];
      assert Without(s, q).delay == s.delay[k - 1 := s.delay[k - 1] - {q}];
    }
  }

  ghost predicate MinimumSoFar(m: nat, keys: set<nat>) {
    if m == 0 then keys == {} else IsMinimum(m, keys)
  }

  lemma MinimumAdd(m: nat, keys: set<nat>, x: nat)
    requires MinimumSoFar(m, keys) && x != 0
    ensures MinimumSoFar(if m == 0 || m > x then x else m, keys + {x})
  {
  }
}
