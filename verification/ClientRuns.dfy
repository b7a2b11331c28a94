/** Runs of one client connection in which it does less than one might expect. */
module ClientRuns {
  import opened Prelude
  import opened Registry
  import opened ClientStream

  lemma Step(s: Conn, a: Action)
    requires Reachable(s) && Enabled(s, a)
    ensures Reachable(Next(s, a))
  {
    var timeout: nat, thresholds: nat, acts :|
      CanRun(ClientStream.Initial(timeout, thresholds), acts)
      && ClientStream.Run(ClientStream.Initial(timeout, thresholds), acts) == s;
    assert ClientStream.Run(Next(s, a), []) == Next(s, a);
    RunCons(s, a, []);
    RunAppend(ClientStream.Initial(timeout, thresholds), acts, [a] + []);
  }

  lemma Start(timeout: nat, thresholds: nat)
    ensures Reachable(ClientStream.Initial(timeout, thresholds))
  {
    var s := ClientStream.Initial(timeout, thresholds);
    assert CanRun(s, []) && ClientStream.Run(s, []) == s;
  }

  /** Task 7 has been counted and has passed the check of `closed`. */
  lemma PastTheCheck() returns (s: Conn)
    ensures Reachable(s) && s.sender == Checked(7, true) && s.receiver == Polling && s.nextSn == 1 && s.limit == 1
    ensures s.reg == Registry.Initial(5).(count := 1) && !s.closed && !s.hasErr && s.inflight == 0
    ensures s.log == ClientStream.Initial(5, 1).log.(submitted := multiset{7})
  {
    Start(5, 1);
    var s0 := ClientStream.Initial(5, 1);
    Step(s0, Sending(Enter(7, true)));
    var s1 := Next(s0, Sending(Enter(7, true)));
    Step(s1, Sending(Count));
    var s2 := Next(s1, Sending(Count));
    Step(s2, Sending(LoadClosed));
    s := Next(s2, Sending(LoadClosed));
  }

  /** A request that cannot be encoded: the connection closes with the task dropped, so that the
      receive loop never returns. */
  lemma EncodingFails() returns (s: Conn)
    ensures Reachable(s) && s.closed && |s.log.dropped| == 1 && s.log.failed == multiset{} && s.reg.chan == []
  {
    var s0 := PastTheCheck();
    Step(s0, Sending(Encode(false)));
    var s1 := Next(s0, Sending(Encode(false)));
    Step(s1, FinishOp);
    s := Next(s1, FinishOp);
  }

  /** Task 7 is registered as number 1 and the sender is idle again. */
  lemma OneRegistered() returns (s: Conn)
    ensures Reachable(s) && s.sender == Idle && s.receiver == Polling && !s.closed && !s.hasErr
    ensures s.reg == Registry.Initial(5).(count := 1, chan := [Item(1, 7)]) && s.log.lost.None?
  {
    var s0 := PastTheCheck();
    Step(s0, Sending(Encode(true)));
    var s1 := Next(s0, Sending(Encode(true)));
    Step(s1, Sending(Write(true)));
    var s2 := Next(s1, Sending(Write(true)));
    Step(s2, Sending(AddGuard));
    var s3 := Next(s2, Sending(AddGuard));
    Step(s3, Sending(Send));
    var s4 := Next(s3, Sending(Send));
    Step(s4, Sending(Unthrottle));
    s := Next(s4, Sending(Unthrottle));
  }

  /** The stop flag is tested before the channel is drained: the response to number 1 has been read,
      its task sits in the channel, and the lookup misses it. */
  lemma StoppedMissesTask() returns (s: Conn)
    ensures Reachable(s) && s.receiver == Waiting(1) && s.reg.stopped && s.reg.processed < 1
    ensures s.reg.chan == [Item(1, 7)] && Lookup(s.reg, 1) == Some(Item(1, 7))
    ensures Enabled(s, Receiving(Resolve)) && Next(s, Receiving(Resolve)).receiver == Polling
    ensures Lookup(Next(s, Receiving(Resolve)).reg, 1) == Some(Item(1, 7))
  {
    var s0 := OneRegistered();
    Step(s0, Receiving(ReadHead(1)));
    var s1 := Next(s0, Receiving(ReadHead(1)));
    Step(s1, Side(Drop));
    var s2 := Next(s1, Side(Drop));
    Step(s2, FinishOp);
    s := Next(s2, FinishOp);
  }

  /** The body of the response to number 1 is being read. */
  lemma BeingRead() returns (s: Conn)
    ensures Reachable(s) && s.sender == Idle && s.receiver == Holding(Item(1, 7)) && !s.closed && !s.hasErr
    ensures s.reg.chan == [] && s.reg.count == 0 && s.log.lost.None?
  {
    var s0 := OneRegistered();
    Step(s0, Receiving(Drain));
    var s1 := Next(s0, Receiving(Drain));
    assert s1.reg.sent == map[1 := Item(1, 7)];
    Step(s1, Receiving(ReadHead(1)));
    var s2 := Next(s1, Receiving(ReadHead(1)));
    assert Find(Batches(s2.reg), 1) == Some(Item(1, 7));
    Step(s2, Receiving(Resolve));
    s := Next(s2, Receiving(Resolve));
  }

  /** `set_error_and_exit` in the middle of that read: the loop returns and task 7 is neither
      finished nor handed to error_handle. */
  lemma AbandonedReadLosesTask() returns (s: Conn)
    ensures Reachable(s) && s.receiver.Returned? && s.log.lost == Some(Item(1, 7))
    ensures s.log.finished[1] == s.reg.timedOut[1] == s.reg.cleaned[1] == 0
  {
    var s0 := BeingRead();
    Step(s0, Side(ForceExit));
    var s1 := Next(s0, Side(ForceExit));
    Step(s1, FinishOp);
    var s2 := Next(s1, FinishOp);
    Step(s2, Exiting(SawError));
    var s3 := Next(s2, Exiting(SawError));
    Step(s3, Exiting(StoreClosed));
    var s4 := Next(s3, Exiting(StoreClosed));
    Step(s4, Exiting(Clean));
    var s5 := Next(s4, Exiting(Clean));
    Step(s5, Exiting(LoadCount));
    s := Next(s5, Exiting(LoadCount));
    ShutdownHandshake(s, 1);
    ReachableInv(s);
    DistinctKeys(s.log.history, 0, 1);
  }

  /** A ping and its response: the receiver waits for a registration that never comes. */
  lemma PingHoldsReceiver() returns (s: Conn)
    ensures Reachable(s) && s.sender == Idle && s.receiver == Waiting(1) && s.log.history == []
    ensures !Enabled(s, Receiving(Resolve))
  {
    Start(5, 1);
    var s0 := ClientStream.Initial(5, 1);
    Step(s0, Side(PingLoad));
    var s1 := Next(s0, Side(PingLoad));
    Step(s1, Side(PingWrite(true)));
    var s2 := Next(s1, Side(PingWrite(true)));
    Step(s2, Receiving(ReadHead(1)));
    s := Next(s2, Receiving(ReadHead(1)));
  }

  /** `acts` leads from `s` to `t` with no read failing. */
  predicate Leads(s: Conn, acts: seq<Action>, t: Conn) {
    CanRun(s, acts) && ClientStream.Run(s, acts) == t && Exiting(ReadFail) !in acts
  }

  lemma First(s: Conn, a: Action, acts: seq<Action>, t: Conn)
    requires Enabled(s, a) && a != Exiting(ReadFail) && Leads(Next(s, a), acts, t)
    ensures Leads(s, [a] + acts, t)
  {
    RunCons(s, a, acts);
  }

  lemma Joined(s: Conn, a: seq<Action>, m: Conn, b: seq<Action>, t: Conn)
    requires Leads(s, a, m) && Leads(m, b, t)
    ensures Leads(s, a + b, t)
  {
    RunAppend(s, a, b);
  }

  /** Task 7 is past the check of `closed` while the loop sees the close and nothing to wait for. */
  lemma ClosedMeanwhile() returns (s: Conn, acts: seq<Action>, t: Conn)
    ensures Reachable(s) && s.receiver == Polling && Leads(s, acts, t)
    ensures t == s.(closed := true, receiver := Cleaning(None))
    ensures t.sender == Checked(7, true) && t.nextSn == 1 && t.limit == 1 && !t.hasErr
    ensures t.reg == Registry.Initial(5).(count := 1)
  {
    s := PastTheCheck();
    var s1 := Next(s, Receiving(SawClose));
    var s2 := Next(s1, Exiting(SawEmpty));
    t := Next(s2, Exiting(StoreClosed));
    assert Leads(t, [], t);
    First(s2, Exiting(StoreClosed), [], t);
    First(s1, Exiting(SawEmpty), [Exiting(StoreClosed)] + [], t);
    acts := [Exiting(SawEmpty)] + ([Exiting(StoreClosed)] + []);
    First(s, Receiving(SawClose), acts, t);
    acts := [Receiving(SawClose)] + acts;
  }

  /** It is registered all the same. */
  lemma RegisteredLate(s: Conn) returns (acts: seq<Action>, t: Conn)
    requires s.sender == Checked(7, true) && s.nextSn == 1 && s.limit == 1 && s.receiver == Cleaning(None)
    requires s.reg == Registry.Initial(5).(count := 1)
    ensures Leads(s, acts, t) && t.hasErr == s.hasErr && t.receiver == s.receiver
    ensures t.reg == Registry.Initial(5).(count := 1, chan := [Item(1, 7)])
  {
    var s1 := Next(s, Sending(Encode(true)));
    var s2 := Next(s1, Sending(Write(true)));
    var s3 := Next(s2, Sending(AddGuard));
    t := Next(s3, Sending(Send));
    assert Leads(t, [], t);
    First(s3, Sending(Send), [], t);
    First(s2, Sending(AddGuard), [Sending(Send)] + [], t);
    acts := [Sending(AddGuard)] + ([Sending(Send)] + []);
    First(s1, Sending(Write(true)), acts, t);
    acts := [Sending(Write(true))] + acts;
    First(s, Sending(Encode(true)), acts, t);
    acts := [Sending(Encode(true))] + acts;
  }

  lemma CleanedLate(s: Conn) returns (acts: seq<Action>, t: Conn)
    requires s.reg == Registry.Initial(5).(count := 1, chan := [Item(1, 7)]) && s.receiver == Cleaning(None)
    ensures Leads(s, acts, t) && t.hasErr == s.hasErr && t.receiver.Returned? && t.reg.cleaned == multiset{1}
  {
    var s1 := Next(s, Receiving(Drain));
    assert s1.reg.sent == map[1 := Item(1, 7)] && Batches(s1.reg) == [s1.reg.sent];
    assert BatchKeys(Batches(s1.reg)) == multiset{1};
    var s2 := Next(s1, Exiting(Clean));
    t := Next(s2, Exiting(LoadCount));
    assert Leads(t, [], t);
    First(s2, Exiting(LoadCount), [], t);
    First(s1, Exiting(Clean), [Exiting(LoadCount)] + [], t);
    acts := [Exiting(Clean)] + ([Exiting(LoadCount)] + []);
    First(s, Receiving(Drain), acts, t);
    acts := [Receiving(Drain)] + acts;
  }

  /** A close without any error that still fails one task: the request has been written, and the
      clean-up hands its task to error_handle. */
  lemma GracefulCloseFailsOne() returns (s: Conn, acts: seq<Action>, t: Conn)
    ensures Reachable(s) && s.receiver == Polling && Leads(s, acts, t)
    ensures t.receiver.Returned? && !t.hasErr && t.reg.cleaned == multiset{1}
  {
    var mid, late, b, c;
    s, acts, mid := ClosedMeanwhile();
    b, late := RegisteredLate(mid);
    c, t := CleanedLate(late);
    Joined(s, acts, mid, b, late);
    Joined(s, acts + b, late, c, t);
    acts := acts + b + c;
  }
}
