/** What the calls and events of one client connection come to, over every run: one send_task from
    start to end, a graceful close, a response to a waiting task, the configured limits. */
module ClientCalls {
  import opened Prelude
  import opened Registry
  import opened ClientStream

  // ---------- Giving up ----------

  /** The flags a list of things to do sets. */
  ghost predicate InEffect(todo: seq<Op>, t: Conn) {
    && (SetClosed in todo ==> t.closed)
    && (SetErr in todo ==> t.hasErr)
    && (StopReg in todo ==> t.reg.stopped)
  }

  lemma FlagStep(s: Conn, a: Action)
    requires Enabled(s, a)
    ensures s.closed ==> Next(s, a).closed
    ensures s.hasErr ==> Next(s, a).hasErr
    ensures s.reg.stopped ==> Next(s, a).reg.stopped
  {
    match a
    case Sending(b) => SendRecords(s, b);
    case FinishOp =>
    case Side(b) =>
    case Receiving(b) =>
    case Exiting(b) =>
  }

  /** No flag is ever taken back. */
  lemma {:induction false} FlagsStay(s: Conn, acts: seq<Action>)
    requires CanRun(s, acts)
    ensures s.closed ==> ClientStream.Run(s, acts).closed
    ensures s.hasErr ==> ClientStream.Run(s, acts).hasErr
    ensures s.reg.stopped ==> ClientStream.Run(s, acts).reg.stopped
    decreases |acts|
  {
    if acts != [] {
      FlagStep(s, acts[0]);
      FlagsStay(Next(s, acts[0]), acts[1..]);
    }
  }

  lemma StillFinishing(s: Conn, a: Action)
    requires Enabled(s, a) && s.sender.Finishing? && a != FinishOp && a != Side(FinishEnd)
    ensures Next(s, a).sender == s.sender
  {
    match a
    case Sending(b) =>
    case FinishOp =>
    case Side(b) =>
    case Receiving(b) => RecvBound(s, b);
    case Exiting(b) => ExitBound(s, b);
  }

  /** Whatever interleaves, a sender that has finished giving up has set every flag it was to set. */
  lemma {:induction false} GivenUp(s: Conn, acts: seq<Action>)
    requires CanRun(s, acts) && s.sender.Finishing? && !ClientStream.Run(s, acts).sender.Finishing?
    ensures InEffect(s.sender.todo, ClientStream.Run(s, acts))
    decreases |acts|
  {
    var a, todo := acts[0], s.sender.todo;
    if a == FinishOp {
      assert todo == [todo[0]] + todo[1..];
      GivenUp(Next(s, a), acts[1..]);
      FlagsStay(Next(s, a), acts[1..]);
    } else if a != Side(FinishEnd) {
      StillFinishing(s, a);
      GivenUp(Next(s, a), acts[1..]);
    }
  }

  /** Dropping the stream closes it and stops registration; a failed flush closes it, marks the error
      and stops registration; a failed ping closes it; `set_error_and_exit` marks the error. */
  lemma Endings(s: Conn, side: SideAct, acts: seq<Action>)
    requires CanSide(s, side) && CanRun(AfterSide(s, side), acts)
    requires !ClientStream.Run(AfterSide(s, side), acts).sender.Finishing?
    ensures var t := ClientStream.Run(AfterSide(s, side), acts);
            && (side == Drop ==> t.closed && t.reg.stopped)
            && (side == Flush(false) ==> t.closed && t.hasErr && t.reg.stopped)
            && (side == PingWrite(false) ==> t.closed)
            && (side == ForceExit ==> t.hasErr)
  {
    if side == Drop || side == Flush(false) || side == PingWrite(false) || side == ForceExit {
      GivenUp(AfterSide(s, side), acts);
    }
  }

  /** What succeeds: a flush or a ping leaves nothing unflushed; a ping takes one number of an open
      connection and none of a closed one, which it leaves as it was. */
  lemma PingsAndFlushes(s: Conn)
    requires s.sender.Idle?
    ensures AfterSide(s, Flush(true)) == s.(unflushed := 0)
    ensures s.closed ==> AfterSide(s, PingLoad) == s
    ensures !s.closed ==> CanSide(AfterSide(s, PingLoad), PingWrite(true))
    ensures !s.closed ==>
            AfterSide(AfterSide(s, PingLoad), PingWrite(true)) == s.(nextSn := s.nextSn + 1, unflushed := 0)
  {
  }

  /** Only a tick gives Timeout, to exactly the tasks in the batch that fell off; only cleaning up gives
      IO, to exactly the tasks still in a batch. */
  lemma ErrorsBySource(s: Conn, a: Action, q: nat)
    requires Inv(s) && Enabled(s, a)
    ensures Next(s, a).reg.timedOut[q] ==
            s.reg.timedOut[q] + One(a == Receiving(TimeReach) && AtTimeout(s.reg, q))
    ensures Next(s, a).reg.cleaned[q] ==
            s.reg.cleaned[q] + One(a == Exiting(Clean) && Find(Batches(s.reg), q).Some?)
  {
    if a == Receiving(TimeReach) {
      TickTimesOut(s.reg, q);
    } else if a == Exiting(Clean) {
      CleanGivesIo(s, q);
    } else {
      GivesNothing(s, a);
    }
  }

  predicate SameErrors(r: State, r': State) {
    r'.timedOut == r.timedOut && r'.cleaned == r.cleaned
  }

  lemma GivesNothing(s: Conn, a: Action)
    requires Wf(s.reg) && Enabled(s, a) && a != Receiving(TimeReach) && a != Exiting(Clean)
    ensures SameErrors(s.reg, Next(s, a).reg)
  {
    match a
    case Sending(b) => SendGivesNothing(s, b);
    case FinishOp => FinishGivesNothing(s);
    case Side(b) =>
    case Receiving(b) => RecvGivesNothing(s, b);
    case Exiting(b) =>
  }

  lemma SendGivesNothing(s: Conn, b: SendAct)
    requires CanSend(s, b)
    ensures SameErrors(s.reg, AfterSend(s, b).reg)
  {
  }

  lemma FinishGivesNothing(s: Conn)
    requires CanFinish(s)
    ensures SameErrors(s.reg, AfterFinish(s).reg)
  {
  }

  lemma RecvGivesNothing(s: Conn, b: RecvAct)
    requires Wf(s.reg) && CanRecv(s, b) && b != TimeReach
    ensures SameErrors(s.reg, AfterRecv(s, b).reg)
  {
  }

  lemma TickTimesOut(r: State, q: nat)
    requires Wf(r)
    ensures Adjusted(r).timedOut[q] == r.timedOut[q] + One(AtTimeout(r, q)) && Adjusted(r).cleaned == r.cleaned
  {
  }

  lemma CleanGivesIo(s: Conn, q: nat)
    requires Inv(s)
    ensures Emptied(s.reg).cleaned[q] == s.reg.cleaned[q] + One(Find(Batches(s.reg), q).Some?)
    ensures Emptied(s.reg).timedOut == s.reg.timedOut
  {
    assert NumberLedger(s.reg, s.log, Hand(s.receiver), q);
    DistinctKeys(s.log.history, 0, q);
    BatchKeysFind(Batches(s.reg), q);
  }

  /** The peer's close, too, ends registration: at most the task already past the check follows. */
  lemma PeerCloseEndsRegistration(s: Conn, acts: seq<Action>)
    requires CanRecv(s, SawClose) && CanRun(AfterRecv(s, SawClose), acts)
    ensures |ClientStream.Run(AfterRecv(s, SawClose), acts).log.history| <= |s.log.history| + One(PastCheck(s.sender))
  {
    ClosedStopsRegistration(AfterRecv(s, SawClose), acts);
  }

  // ---------- One call of send_task ----------

  /** How a call ends: `closed` was seen, encoding failed, writing failed, or the task is registered. */
  datatype Fate = Open | Refused | Unencodable | Unwritable | InRegistry

  function Todo(p: Sender): seq<Op> {
    if p.Finishing? then p.todo else []
  }

  predicate Ending(p: Sender, id: nat) {
    p.Idle? || (p.Finishing? && p.id == id && !p.drop)
  }

  /** The sender's part of the log. */
  predicate SameBut(b: Log, m: Log, id: nat, failed: bool, dropped: bool) {
    && m.submitted == b.submitted + multiset{id}
    && m.failed == (if failed then b.failed + multiset{id} else b.failed)
    && m.dropped == (if dropped then b.dropped + multiset{id} else b.dropped)
  }

  /** `s` lies within the call that gave task `id` to the connection in state `b`. */
  ghost predicate InCall(b: Conn, id: nat, want: bool, s: Conn, f: Fate) {
    match f
    case Open =>
      && (BeforeGuard(s.sender) || s.sender.Guarded?) && s.sender.id == id
      && (b.closed ==> s.closed && !PastCheck(s.sender)) && (want ==> s.sender.flush)
      && SameBut(b.log, s.log, id, false, false) && s.log.history == b.log.history
      && (if HasSn(s.sender) then s.sender.sn == b.nextSn else s.nextSn == b.nextSn)
    case Refused =>
      && Ending(s.sender, id) && s.closed && s.nextSn == b.nextSn
      && SameBut(b.log, s.log, id, HandleError !in Todo(s.sender), false) && s.log.history == b.log.history
    case Unencodable =>
      && Ending(s.sender, id) && !b.closed && HandleError !in Todo(s.sender)
      && SameBut(b.log, s.log, id, false, true) && s.log.history == b.log.history
      && (SetClosed in Todo(s.sender) || s.closed) && (SetErr in Todo(s.sender) || s.hasErr)
    case Unwritable =>
      && Ending(s.sender, id) && !b.closed
      && SameBut(b.log, s.log, id, HandleError !in Todo(s.sender), false) && s.log.history == b.log.history
      && (SetClosed in Todo(s.sender) || s.closed) && (SetErr in Todo(s.sender) || s.hasErr)
      && (StopReg in Todo(s.sender) || s.reg.stopped)
    case InRegistry =>
      && (s.sender.Throttling? || s.sender.Idle?) && !b.closed && (want ==> s.unflushed == 0)
      && SameBut(b.log, s.log, id, false, false) && s.log.history == b.log.history + [Item(b.nextSn, id)]
  }

  /** Steps within one call: the receiver's are free, the sender starts nothing else. */
  predicate WithinCall(a: Action) {
    match a
    case Sending(b) => !b.Enter?
    case Side(b) => b == FinishEnd
    case _ => true
  }

  predicate AllWithin(acts: seq<Action>) {
    forall i :: 0 <= i < |acts| ==> WithinCall(acts[i])
  }

  function FateAfter(s: Conn, f: Fate, a: Action): Fate {
    if f != Open then f
    else if a == Sending(LoadClosed) && s.closed then Refused
    else if a == Sending(Encode(false)) then Unencodable
    else if a == Sending(Write(false)) then Unwritable
    else if a == Sending(Send) then InRegistry
    else Open
  }

  lemma CallSend(b: Conn, id: nat, want: bool, s: Conn, f: Fate, a: SendAct)
    requires InCall(b, id, want, s, f) && CanSend(s, a) && !a.Enter? && Windowed(s)
    ensures InCall(b, id, want, AfterSend(s, a), FateAfter(s, f, Sending(a)))
    ensures f != Open ==> a == Unthrottle
  {
  }

  lemma TodoMembers(todo: seq<Op>)
    requires todo != []
    ensures forall x :: x in todo <==> x == todo[0] || x in todo[1..]
  {
    assert todo == [todo[0]] + todo[1..];
  }

  lemma CallHandles(b: Conn, id: nat, want: bool, s: Conn, f: Fate)
    requires InCall(b, id, want, s, f) && CanFinish(s) && TodoOk(s.sender) && s.sender.todo[0] == HandleError
    ensures InCall(b, id, want, AfterFinish(s), f)
  {
    TodoHead(s.sender.todo);
    TodoMembers(s.sender.todo);
  }

  lemma CallFlags(b: Conn, id: nat, want: bool, s: Conn, f: Fate)
    requires InCall(b, id, want, s, f) && CanFinish(s) && s.sender.todo[0] != HandleError
    ensures InCall(b, id, want, AfterFinish(s), f)
  {
    var t := AfterFinish(s);
    TodoMembers(s.sender.todo);
    assert t.log == s.log && t.nextSn == s.nextSn && Ending(t.sender, id) && Todo(t.sender) == s.sender.todo[1..];
    assert s.closed ==> t.closed;
  }

  lemma CallFinish(b: Conn, id: nat, want: bool, s: Conn, f: Fate)
    requires InCall(b, id, want, s, f) && CanFinish(s) && TodoOk(s.sender)
    ensures InCall(b, id, want, AfterFinish(s), f) && f != Open
  {
    if s.sender.todo[0] == HandleError {
      CallHandles(b, id, want, s, f);
    } else {
      CallFlags(b, id, want, s, f);
    }
  }

  lemma CallRecv(b: Conn, id: nat, want: bool, s: Conn, f: Fate, a: RecvAct)
    requires InCall(b, id, want, s, f) && CanRecv(s, a)
    ensures InCall(b, id, want, AfterRecv(s, a), f)
  {
    RecvBound(s, a);
    assert AfterRecv(s, a).unflushed == s.unflushed && AfterRecv(s, a).hasErr == s.hasErr;
    FlagStep(s, Receiving(a));
  }

  lemma CallExit(b: Conn, id: nat, want: bool, s: Conn, f: Fate, a: ExitAct)
    requires InCall(b, id, want, s, f) && CanExit(s, a)
    ensures InCall(b, id, want, AfterExit(s, a), f)
  {
    ExitBound(s, a);
    assert AfterExit(s, a).unflushed == s.unflushed && AfterExit(s, a).hasErr == s.hasErr;
    FlagStep(s, Exiting(a));
  }

  lemma CallEnd(b: Conn, id: nat, want: bool, s: Conn, f: Fate)
    requires InCall(b, id, want, s, f) && CanSide(s, FinishEnd)
    ensures InCall(b, id, want, AfterSide(s, FinishEnd), f) && f != Open
  {
  }

  predicate Decisive(a: Action) {
    a == Sending(Encode(false)) || a == Sending(Write(false)) || a == Sending(Send)
  }

  lemma CallStep(b: Conn, id: nat, want: bool, s: Conn, f: Fate, a: Action)
    requires Windowed(s) && TodoOk(s.sender) && InCall(b, id, want, s, f) && Enabled(s, a) && WithinCall(a)
    ensures InCall(b, id, want, Next(s, a), FateAfter(s, f, a))
    ensures f != Open ==> !Decisive(a)
  {
    match a
    case Sending(c) => CallSend(b, id, want, s, f, c);
    case FinishOp => CallFinish(b, id, want, s, f);
    case Side(c) => CallEnd(b, id, want, s, f);
    case Receiving(c) => CallRecv(b, id, want, s, f, c);
    case Exiting(c) => CallExit(b, id, want, s, f, c);
  }

  /** The fate of a call is what its decisive step says. */
  ghost predicate Decided(f: Fate, acts: seq<Action>) {
    && (f == Unencodable <==> Sending(Encode(false)) in acts)
    && (f == Unwritable <==> Sending(Write(false)) in acts)
    && (f == InRegistry <==> Sending(Send) in acts)
  }

  predicate Indecisive(acts: seq<Action>) {
    forall i :: 0 <= i < |acts| ==> !Decisive(acts[i])
  }

  /** How the fate develops over a run. */
  ghost predicate Develops(f: Fate, acts: seq<Action>, g: Fate) {
    if f == Open then Decided(g, acts) else g == f && Indecisive(acts)
  }

  lemma DevelopsMore(s: Conn, f: Fate, a: Action, rest: seq<Action>, g: Fate)
    requires Develops(FateAfter(s, f, a), rest, g) && (f != Open ==> !Decisive(a))
    ensures Develops(f, [a] + rest, g)
  {
    var acts := [a] + rest;
    assert forall x :: x in acts <==> x == a || x in rest;
    if FateAfter(s, f, a) != Open { assert forall x :: x in rest ==> !Decisive(x); }
  }

  lemma {:induction false} CallRuns(b: Conn, id: nat, want: bool, s: Conn, f: Fate, acts: seq<Action>) returns (g: Fate)
    requires Inv(s) && InCall(b, id, want, s, f) && CanRun(s, acts) && AllWithin(acts)
    ensures InCall(b, id, want, ClientStream.Run(s, acts), g) && Develops(f, acts, g)
    decreases |acts|
  {
    if acts == [] {
      g := f;
    } else {
      var a := acts[0];
      StepKeeps(s, a);
      CallStep(b, id, want, s, f, a);
      g := CallRuns(b, id, want, Next(s, a), FateAfter(s, f, a), acts[1..]);
      DevelopsMore(s, f, a, acts[1..], g);
      assert acts == [a] + acts[1..];
    }
  }

  /** One call of send_task, whatever interleaves, from its start to its return:
      - the task cannot be encoded: dropped, and the connection is closed with an error;
      - it cannot be written: handed to error_handle, closed with an error, registration stopped;
      - it is registered, under the next number, and flushed if that was asked for;
      - otherwise `closed` was seen: handed to error_handle without a number.
      A connection that was closed refuses; one that is still open at the end has registered. */
  lemma SendTask(s: Conn, id: nat, want: bool, acts: seq<Action>)
    requires Reachable(s) && s.sender.Idle? && AllWithin(acts)
    requires CanRun(AfterSend(s, Enter(id, want)), acts)
    requires ClientStream.Run(AfterSend(s, Enter(id, want)), acts).sender.Idle?
    ensures var t := ClientStream.Run(AfterSend(s, Enter(id, want)), acts);
            if Sending(Encode(false)) in acts then
              && SameBut(s.log, t.log, id, false, true) && t.log.history == s.log.history
              && t.closed && t.hasErr && !s.closed
            else if Sending(Write(false)) in acts then
              && SameBut(s.log, t.log, id, true, false) && t.log.history == s.log.history
              && t.closed && t.hasErr && t.reg.stopped && !s.closed
            else if Sending(Send) in acts then
              && SameBut(s.log, t.log, id, false, false) && t.log.history == s.log.history + [Item(s.nextSn, id)]
              && !s.closed && (want ==> t.unflushed == 0)
            else
              && SameBut(s.log, t.log, id, true, false) && t.log.history == s.log.history
              && t.closed && t.nextSn == s.nextSn
  {
    ReachableInv(s);
    StepKeeps(s, Sending(Enter(id, want)));
    var g := CallRuns(s, id, want, AfterSend(s, Enter(id, want)), Open, acts);
  }

  // ---------- A graceful close ----------

  lemma SomethingHeld(r: State) returns (q: nat)
    requires r.chan != [] || !NoBatches(r)
    ensures Lookup(r, q).Some?
  {
    if r.chan != [] {
      q := r.chan[0].sn;
    } else if r.sent != map[] {
      q :| q in r.sent;
    } else {
      var k :| 0 <= k < |r.delay| && r.delay[k] != map[];
      q :| q in r.delay[k];
      FindSome(Batches(r), q, k + 1);
    }
  }

  /** The receive loop ends on its own exactly if the connection is closed and nothing can be looked up. */
  lemma LeavesWhenEmpty(s: Conn)
    ensures Enabled(s, Exiting(SawEmpty))
            <==> s.receiver.Polling? && s.closed && forall q :: Lookup(s.reg, q) == None
  {
    if s.reg.chan == [] && NoBatches(s.reg) {
      forall q ensures Lookup(s.reg, q) == None { FindNone(Batches(s.reg), q); }
    } else {
      var q := SomethingHeld(s.reg);
    }
  }

  lemma {:induction false} KeysSize(bs: seq<Batch>)
    ensures |BatchKeys(bs)| == Size(bs)
  {
    if bs != [] {
      KeysSize(bs[1..]);
      assert |multiset(bs[0].Keys)| == |bs[0].Keys| == |bs[0]|;
    }
  }

  /** While the loop runs nothing is cleaned up; once it ends, at most one task is left to come. */
  ghost predicate Gentle(s: Conn) {
    if Running(s.receiver) then s.reg.cleaned == multiset{}
    else s.closed && |s.reg.cleaned| + HeldSize(s.reg) + One(PastCheck(s.sender)) <= 1
  }

  lemma GentleSend(s: Conn, b: SendAct)
    requires Gentle(s) && CanSend(s, b)
    ensures Gentle(AfterSend(s, b))
  {
    assert Batches(AfterSend(s, b).reg) == Batches(s.reg);
  }

  lemma GentleFinish(s: Conn)
    requires Gentle(s) && CanFinish(s)
    ensures Gentle(AfterFinish(s))
  {
    assert Batches(AfterFinish(s).reg) == Batches(s.reg);
  }

  lemma GentleSide(s: Conn, b: SideAct)
    requires Gentle(s) && CanSide(s, b)
    ensures Gentle(AfterSide(s, b))
  {
    assert AfterSide(s, b).reg == s.reg;
  }

  lemma GentleRecv(s: Conn, b: RecvAct)
    requires Wf(s.reg) && Gentle(s) && CanRecv(s, b)
    ensures Gentle(AfterRecv(s, b))
  {
    RecvBound(s, b);
    if b == Drain { GotSize(s.reg); }
  }

  lemma GentleExit(s: Conn, b: ExitAct)
    requires Gentle(s) && CanExit(s, b) && b != ReadFail && !s.hasErr
    ensures Gentle(AfterExit(s, b))
  {
    ExitBound(s, b);
    if b == SawEmpty {
      SizeZero(Batches(s.reg));
    } else if b == Clean {
      EmptiedSize(s.reg);
      KeysSize(Batches(s.reg));
    }
  }

  lemma {:induction false} GentleRun(s: Conn, acts: seq<Action>)
    requires Inv(s) && Gentle(s) && CanRun(s, acts)
    requires Exiting(ReadFail) !in acts && !ClientStream.Run(s, acts).hasErr
    ensures Gentle(ClientStream.Run(s, acts))
    decreases |acts|
  {
    FlagsStay(s, acts);
    if acts != [] {
      var a := acts[0];
      StepKeeps(s, a);
      match a {
        case Sending(b) => GentleSend(s, b);
        case FinishOp => GentleFinish(s);
        case Side(b) => GentleSide(s, b);
        case Receiving(b) => GentleRecv(s, b);
        case Exiting(b) => GentleExit(s, b);
      }
      GentleRun(Next(s, a), acts[1..]);
    }
  }

  /** A close without an error waits for the responses: over every run in which no read fails and
      `has_err` stays unset, at most one task is ever cleaned up (the one that was past the check of
      `closed` when the loop saw nothing left), and every other registered task has been answered or has
      timed out by the time the loop returns. */
  lemma GracefulClose(timeout: nat, thresholds: nat, acts: seq<Action>, q: nat)
    requires CanRun(ClientStream.Initial(timeout, thresholds), acts) && Exiting(ReadFail) !in acts
    requires !ClientStream.Run(ClientStream.Initial(timeout, thresholds), acts).hasErr
    ensures var t := ClientStream.Run(ClientStream.Initial(timeout, thresholds), acts);
            && |t.reg.cleaned| <= 1
            && (Running(t.receiver) ==> t.reg.cleaned == multiset{})
            && (t.receiver.Returned? && t.reg.cleaned[q] == 0 ==>
                  t.log.finished[q] + t.reg.timedOut[q] == One(FindChannel(t.log.history, q).Some?))
  {
    var s := ClientStream.Initial(timeout, thresholds);
    InitialInv(timeout, thresholds);
    GentleRun(s, acts);
    var t := ClientStream.Run(s, acts);
    assert Reachable(t);
    if t.receiver.Returned? { ShutdownHandshake(t, q); }
  }

  /** Closed with nothing registered and nothing about to be. */
  ghost predicate NothingLeft(s: Conn) {
    s.closed && s.reg.chan == [] && AllEmpty(Batches(s.reg)) && !PastCheck(s.sender)
  }

  lemma NothingLeftSend(s: Conn, b: SendAct)
    requires NothingLeft(s) && CanSend(s, b)
    ensures NothingLeft(AfterSend(s, b)) && SameErrors(s.reg, AfterSend(s, b).reg)
  {
    assert Batches(AfterSend(s, b).reg) == Batches(s.reg);
  }

  lemma NothingLeftFinish(s: Conn)
    requires NothingLeft(s) && CanFinish(s)
    ensures NothingLeft(AfterFinish(s)) && SameErrors(s.reg, AfterFinish(s).reg)
  {
    assert Batches(AfterFinish(s).reg) == Batches(s.reg);
  }

  lemma NothingLeftRecv(s: Conn, b: RecvAct)
    requires NothingLeft(s) && Wf(s.reg) && CanRecv(s, b)
    ensures NothingLeft(AfterRecv(s, b)) && AfterRecv(s, b).reg.cleaned == s.reg.cleaned
  {
    if b == Resolve { FindNone(Batches(s.reg), s.receiver.sn); }
  }

  lemma {:induction false} NoKeys(bs: seq<Batch>)
    requires AllEmpty(bs)
    ensures BatchKeys(bs) == multiset{}
  {
    if bs != [] { NoKeys(bs[1..]); }
  }

  lemma NothingLeftExit(s: Conn, b: ExitAct)
    requires NothingLeft(s) && CanExit(s, b)
    ensures NothingLeft(AfterExit(s, b)) && AfterExit(s, b).reg.cleaned == s.reg.cleaned
  {
    if b == Clean { NoKeys(Batches(s.reg)); }
  }

  lemma NothingLeftStep(s: Conn, a: Action)
    requires Wf(s.reg) && NothingLeft(s) && Enabled(s, a)
    ensures NothingLeft(Next(s, a)) && Next(s, a).reg.cleaned == s.reg.cleaned
  {
    match a
    case Sending(b) => NothingLeftSend(s, b);
    case FinishOp => NothingLeftFinish(s);
    case Side(b) =>
    case Receiving(b) => NothingLeftRecv(s, b);
    case Exiting(b) => NothingLeftExit(s, b);
  }

  lemma {:induction false} NothingLeftRun(s: Conn, acts: seq<Action>)
    requires Inv(s) && NothingLeft(s) && CanRun(s, acts)
    ensures ClientStream.Run(s, acts).reg.cleaned == s.reg.cleaned
    decreases |acts|
  {
    if acts != [] {
      NothingLeftStep(s, acts[0]);
      StepKeeps(s, acts[0]);
      NothingLeftRun(Next(s, acts[0]), acts[1..]);
    }
  }

  /** If no sender is past the check of `closed` when the loop sees nothing left, no task is cleaned up,
      whatever runs afterwards. */
  lemma QuietCloseFailsNone(s: Conn, acts: seq<Action>)
    requires Reachable(s) && Enabled(s, Exiting(SawEmpty)) && !PastCheck(s.sender)
    requires CanRun(Next(s, Exiting(SawEmpty)), acts)
    ensures ClientStream.Run(Next(s, Exiting(SawEmpty)), acts).reg.cleaned == s.reg.cleaned
  {
    ReachableInv(s);
    StepKeeps(s, Exiting(SawEmpty));
    NothingLeftRun(Next(s, Exiting(SawEmpty)), acts);
  }

  // ---------- A response ----------

  lemma {:induction false} DrainKeepsLookup(s: Conn) returns (acts: seq<Action>)
    requires Inv(s) && Running(s.receiver)
    ensures CanRun(s, acts) && ReceiverOnly(acts)
    ensures var t := ClientStream.Run(s, acts);
            && Inv(t) && t == s.(reg := t.reg) && t.reg.chan == []
            && t.reg.timedOut == s.reg.timedOut && t.reg.cleaned == s.reg.cleaned
            && forall x :: Lookup(t.reg, x) == Lookup(s.reg, x)
    decreases |s.reg.chan|
  {
    acts := [];
    if s.reg.chan != [] {
      var a := Receiving(Drain);
      StepKeeps(s, a);
      var rest := DrainKeepsLookup(Next(s, a));
      forall x ensures Lookup(Next(s, a).reg, x) == Lookup(s.reg, x) { GotLookup(s.reg, x); }
      RunCons(s, a, rest);
      acts := [a] + rest;
    }
  }

  lemma HeldIsRecent(r: State, q: nat)
    requires Wf(r) && Lookup(r, q).Some?
    ensures r.minDelay < q && (r.chan == [] ==> q <= r.processed && Find(Batches(r), q) == Lookup(r, q))
    ensures Lookup(r, q).value.sn == q
  {
    if FindChannel(r.chan, q).Some? {
      var i := ChannelHit(r.chan, q);
    } else {
      var k := TheBatch(r, q);
      assert Keyed(Batches(r)[k], r.minDelay, r.processed);
    }
  }

  lemma {:induction false} ChannelHit(chan: seq<Item>, q: nat) returns (i: nat)
    requires FindChannel(chan, q).Some?
    ensures i < |chan| && chan[i].sn == q && FindChannel(chan, q) == Some(chan[i])
  {
    if chan[0].sn == q {
      i := 0;
    } else {
      i := ChannelHit(chan[1..], q);
      i := i + 1;
    }
  }

  /** Its header has been read and the channel drained: the task is found, answered and gone. */
  lemma FoundAndFinished(s: Conn, q: nat) returns (acts: seq<Action>)
    requires Inv(s) && s.receiver == Waiting(q) && s.reg.chan == [] && Lookup(s.reg, q).Some?
    ensures CanRun(s, acts) && ReceiverOnly(acts)
    ensures var t := ClientStream.Run(s, acts);
            && t.receiver == Polling && t.sender == s.sender && t.inflight == s.inflight - 1
            && t.log.finished == s.log.finished + multiset{q}
            && t.reg.timedOut == s.reg.timedOut && t.reg.cleaned == s.reg.cleaned
            && forall x :: Lookup(t.reg, x) == if x == q then None else Lookup(s.reg, x)
  {
    HeldIsRecent(s.reg, q);
    WithoutKeeps(s.reg, q);
    var t := Next(s, Receiving(Resolve));
    assert t.receiver == Holding(Lookup(s.reg, q).value);
    RunCons(t, Receiving(FinishResp), []);
    RunCons(s, Receiving(Resolve), [Receiving(FinishResp)] + []);
    acts := [Receiving(Resolve)] + ([Receiving(FinishResp)] + []);
  }

  /** A response to a task that waits anywhere in the registry, its registration still in the channel
      included, is never taken for a late one, and the receiver alone can bring it to its task. */
  lemma ResponseReachesTask(s: Conn, q: nat) returns (acts: seq<Action>)
    requires Reachable(s) && s.receiver == Polling && Lookup(s.reg, q).Some?
    ensures Next(s, Receiving(ReadHead(q))) == s.(receiver := Waiting(q))
    ensures CanRun(Next(s, Receiving(ReadHead(q))), acts) && ReceiverOnly(acts)
    ensures var t := ClientStream.Run(Next(s, Receiving(ReadHead(q))), acts);
            && t.receiver == Polling && t.sender == s.sender && t.inflight == s.inflight - 1
            && t.log.finished == s.log.finished + multiset{q}
            && t.reg.timedOut == s.reg.timedOut && t.reg.cleaned == s.reg.cleaned
            && forall x :: Lookup(t.reg, x) == if x == q then None else Lookup(s.reg, x)
  {
    ReachableInv(s);
    HeldIsRecent(s.reg, q);
    var a := Receiving(ReadHead(q));
    StepKeeps(s, a);
    var first := DrainKeepsLookup(Next(s, a));
    var mid := ClientStream.Run(Next(s, a), first);
    var rest := FoundAndFinished(mid, q);
    RunAppend(Next(s, a), first, rest);
    acts := first + rest;
  }

  // ---------- The configured limits ----------

  lemma LimitStep(s: Conn, a: Action)
    requires Enabled(s, a)
    ensures Next(s, a).limit == s.limit && Next(s, a).reg.timeout == s.reg.timeout
  {
    match a
    case Sending(b) =>
    case FinishOp =>
    case Side(b) =>
    case Receiving(b) =>
    case Exiting(b) =>
  }

  lemma {:induction false} LimitsStay(s: Conn, acts: seq<Action>)
    requires CanRun(s, acts)
    ensures ClientStream.Run(s, acts).limit == s.limit && ClientStream.Run(s, acts).reg.timeout == s.reg.timeout
    decreases |acts|
  {
    if acts != [] {
      LimitStep(s, acts[0]);
      LimitsStay(Next(s, acts[0]), acts[1..]);
    }
  }

  /** A connection configured with `timeout`: whatever happened before, a task of the current second
      that then gets no response is given Timeout exactly at tick `timeout + 1`. */
  lemma TimeoutAsConfigured(timeout: nat, thresholds: nat, before: seq<Action>, acts: seq<Action>, q: nat)
    requires CanRun(ClientStream.Initial(timeout, thresholds), before)
    requires var s := ClientStream.Run(ClientStream.Initial(timeout, thresholds), before);
             q in s.reg.sent && s.receiver != Waiting(q) && CanRun(s, acts) && AllSilent(acts, q)
    ensures var s := ClientStream.Run(ClientStream.Initial(timeout, thresholds), before);
            ClientStream.Run(s, acts).reg.timedOut[q] == One(TicksOf(acts) >= timeout + 1)
  {
    var i := ClientStream.Initial(timeout, thresholds);
    InitialInv(timeout, thresholds);
    RunKeeps(i, before);
    LimitsStay(i, before);
    var s := ClientStream.Run(i, before);
    assert Batches(s.reg)[0] == s.reg.sent;
    TimesOutExactly(s, acts, q, 0);
  }

  /** A connection configured with `thresholds`, 128 standing for 0: never more than one task above,
      and the registration channel is never full, so that registering does not wait. */
  lemma WindowAsConfigured(timeout: nat, thresholds: nat, acts: seq<Action>)
    requires CanRun(ClientStream.Initial(timeout, thresholds), acts)
    ensures var t, limit := ClientStream.Run(ClientStream.Initial(timeout, thresholds), acts),
                            if thresholds > 0 then thresholds else 128;
            && HeldSize(t.reg) + HandSize(Hand(t.receiver)) <= t.inflight <= limit + 1
            && (t.sender.Idle? ==> t.inflight <= limit)
            && |t.reg.chan| <= limit + 1
            && (t.sender.Guarded? ==> CanSend(t, Send))
  {
    var i := ClientStream.Initial(timeout, thresholds);
    InitialInv(timeout, thresholds);
    RunKeeps(i, acts);
    LimitsStay(i, acts);
  }
}
