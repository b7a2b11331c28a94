/** One client connection as a step system: the sending task and the receiving task interleave at
    every access to shared memory (the pending counter, `closed`, `has_err`, the registration
    channel, the in-flight guard count), and the network, the peer and the clock choose freely. */
module ClientStream {
  import opened Prelude
  import opened Registry

  /** What a sender that gives up still has to do, in program order. */
  datatype Op = SetClosed | SetErr | StopReg | Rollback | HandleError

  datatype Sender =
    | Idle
    | Entered(id: nat, flush: bool)            // nearly_full has been read
    | Counted(id: nat, flush: bool)            // the pending counter has been raised
    | Checked(id: nat, flush: bool)            // `closed` was seen false
    | Encoded(id: nat, sn: nat, flush: bool)   // the request is in the encode buffer
    | Written(id: nat, sn: nat, flush: bool)   // and has been accepted by the transport
    | Guarded(id: nat, sn: nat, flush: bool)   // and counts as in flight
    | Throttling                               // registered; waiting for the window
    | Pinging
    | Finishing(todo: seq<Op>, id: nat, drop: bool)
    | Gone

  /** `hand` is the task of a response that was being read when the receive future was given up:
      it stays owned by that future until the loop returns. */
  datatype Receiver =
    | Polling
    | Waiting(sn: nat)                // inside take_task
    | Holding(it: Item)               // reading the body of the response to `it`
    | Leaving(hand: Option<Item>)     // the loop saw an error
    | Cleaning(hand: Option<Item>)    // inside clean_pending_tasks
    | Counting(hand: Option<Item>)    // about to read the pending counter
    | Returned

  /** What happened so far: callers' tasks by id, registered ones by sequence number. */
  datatype Log = Log(
    submitted: multiset<nat>,   // given to send_task
    failed: multiset<nat>,      // handed to error_handle by the sender
    dropped: multiset<nat>,     // not encodable: forgotten by the sender
    history: seq<Item>,         // registered, in order
    finished: multiset<nat>,    // found by take_task, then done or handed to error_handle
    lost: Option<Item>)         // found by take_task, then dropped with an abandoned read

  datatype Conn = Conn(
    reg: State,
    nextSn: nat,
    closed: bool,
    hasErr: bool,
    limit: nat,
    inflight: int,
    unflushed: nat,
    sender: Sender,
    receiver: Receiver,
    log: Log)

  datatype SendAct =
    | Enter(id: nat, wantFlush: bool)
    | Count
    | LoadClosed
    | Encode(ok: bool)
    | Write(ok: bool)
    | AddGuard
    | Send
    | Unthrottle

  datatype SideAct =
    | FinishEnd
    | PingLoad
    | PingWrite(pingOk: bool)
    | Flush(flushOk: bool)
    | ForceExit
    | Drop

  datatype RecvAct =
    | TimeReach
    | Drain
    | ReadHead(sn: nat)
    | Resolve
    | FinishResp
    | SawClose

  datatype ExitAct =
    | SawError
    | SawEmpty
    | ReadFail
    | StoreClosed
    | Clean
    | LoadCount

  /** `FinishOp` is the next step of a sender that is giving up. */
  datatype Action =
    | Sending(send: SendAct)
    | FinishOp
    | Side(side: SideAct)
    | Receiving(recv: RecvAct)
    | Exiting(exit: ExitAct)

  function Initial(timeout: nat, thresholds: nat): Conn {
    Conn(Registry.Initial(timeout), 1, false, false, if thresholds == 0 then 128 else thresholds, 0, 0, Idle, Polling,
         Log(multiset{}, multiset{}, multiset{}, [], multiset{}, None))
  }

  // ---------- send_task and send_request ----------

  const WRITE_FAILED := [SetClosed, SetErr, Rollback, StopReg, HandleError, SetClosed, SetErr]

  predicate CanSend(s: Conn, a: SendAct) {
    match a
    case Enter(_, _) => s.sender.Idle?
    case Count => s.sender.Entered?
    case LoadClosed => s.sender.Counted?
    case Encode(_) => s.sender.Checked?
    case Write(_) => s.sender.Encoded?
    case AddGuard => s.sender.Written?
    case Send => s.sender.Guarded? && |s.reg.chan| < 2 * s.limit
    case Unthrottle => s.sender.Throttling? && s.inflight <= s.limit
  }

  function AfterSend(s: Conn, a: SendAct): Conn
    requires CanSend(s, a)
  {
    match a
    case Enter(id, want) =>
      s.(sender := Entered(id, want || s.inflight + 1 > s.limit),
         log := s.log.(submitted := s.log.submitted + multiset{id}))
    case Count =>
      s.(sender := Counted(s.sender.id, s.sender.flush), reg := s.reg.(count := s.reg.count + 1))
    case LoadClosed =>
      s.(sender := if s.closed then Finishing([HandleError, Rollback], s.sender.id, false)
                   else Checked(s.sender.id, s.sender.flush))
    case Encode(ok) =>
      if ok then s.(sender := Encoded(s.sender.id, s.nextSn, s.sender.flush), nextSn := s.nextSn + 1)
      else s.(sender := Finishing([SetClosed, SetErr], s.sender.id, false), nextSn := s.nextSn + 1,
              log := s.log.(dropped := s.log.dropped + multiset{s.sender.id}))
    case Write(ok) =>
      if ok then s.(sender := Written(s.sender.id, s.sender.sn, s.sender.flush),
                    unflushed := if s.sender.flush then 0 else s.unflushed + 1)
      else s.(sender := Finishing(WRITE_FAILED, s.sender.id, false))
    case AddGuard =>
      s.(sender := Guarded(s.sender.id, s.sender.sn, s.sender.flush), inflight := s.inflight + 1)
    case Send =>
      var it := Item(s.sender.sn, s.sender.id);
      s.(sender := Throttling, reg := Register(s.reg, it), log := s.log.(history := s.log.history + [it]))
    case Unthrottle => s.(sender := Idle)
  }

  // ---------- Giving up, pings, flushes, drop ----------

  predicate CanSide(s: Conn, a: SideAct) {
    match a
    case FinishEnd => s.sender.Finishing? && s.sender.todo == []
    case PingWrite(_) => s.sender.Pinging?
    case _ => s.sender.Idle?
  }

  predicate CanFinish(s: Conn) {
    s.sender.Finishing? && s.sender.todo != []
  }

  function AfterFinish(s: Conn): Conn
    requires CanFinish(s)
  {
    var p := Finishing(s.sender.todo[1..], s.sender.id, s.sender.drop);
    match s.sender.todo[0]
    case SetClosed => s.(sender := p, closed := true)
    case SetErr => s.(sender := p, hasErr := true)
    case StopReg => s.(sender := p, reg := s.reg.(stopped := true))
    case Rollback => s.(sender := p, reg := s.reg.(count := s.reg.count - 1))
    case HandleError => s.(sender := p, log := s.log.(failed := s.log.failed + multiset{p.id}))
  }

  function AfterSide(s: Conn, a: SideAct): Conn
    requires CanSide(s, a)
  {
    match a
    case FinishEnd => s.(sender := if s.sender.drop then Gone else Idle)
    case PingLoad => s.(sender := if s.closed then Idle else Pinging)
    case PingWrite(ok) =>
      if ok then s.(sender := Idle, nextSn := s.nextSn + 1, unflushed := 0)
      else s.(sender := Finishing([SetClosed], 0, false), nextSn := s.nextSn + 1)
    case Flush(ok) =>
      if ok then s.(unflushed := 0) else s.(sender := Finishing([SetClosed, SetErr, StopReg], 0, false))
    case ForceExit => s.(sender := Finishing([SetErr], 0, false))
    case Drop => s.(sender := Finishing([StopReg, SetClosed], 0, true))
  }

  // ---------- Receiving ----------

  predicate Running(r: Receiver) {
    r.Polling? || r.Waiting? || r.Holding?
  }

  function Hand(r: Receiver): Option<Item> {
    match r
    case Holding(it) => Some(it)
    case Leaving(h) => h
    case Cleaning(h) => h
    case Counting(h) => h
    case _ => None
  }

  predicate CanRecv(s: Conn, a: RecvAct) {
    match a
    case TimeReach => Running(s.receiver)
    case Drain => (Running(s.receiver) || s.receiver.Cleaning?) && s.reg.chan != []
    case ReadHead(_) => s.receiver.Polling?
    case Resolve => s.receiver.Waiting? && (s.receiver.sn <= s.reg.processed || s.reg.stopped)
    case FinishResp => s.receiver.Holding?
    case SawClose => s.receiver.Polling?
  }

  function AfterRecv(s: Conn, a: RecvAct): Conn
    requires CanRecv(s, a)
  {
    match a
    case TimeReach => s.(reg := Adjusted(s.reg), inflight := s.inflight - Expiring(s.reg))
    case Drain => s.(reg := Got(s.reg))
    case ReadHead(q) => s.(receiver := if q < s.reg.minDelay then Polling else Waiting(q))
    case Resolve =>
      var q := s.receiver.sn;
      var found := if q <= s.reg.processed then Find(Batches(s.reg), q) else None;
      if found.None? then s.(receiver := Polling)
      else s.(receiver := Holding(found.value), reg := Without(s.reg, q))
    case FinishResp =>
      s.(receiver := Polling, inflight := s.inflight - 1,
         log := s.log.(finished := s.log.finished + multiset{s.receiver.it.sn}))
    case SawClose => s.(closed := true)
  }

  // ---------- Leaving the receive loop ----------

  predicate NoBatches(s: State) {
    s.sent == map[] && forall k :: 0 <= k < |s.delay| ==> s.delay[k] == map[]
  }

  predicate CanExit(s: Conn, a: ExitAct) {
    match a
    case SawError => Running(s.receiver) && s.hasErr
    case SawEmpty => s.receiver.Polling? && s.closed && s.reg.chan == [] && NoBatches(s.reg)
    case ReadFail => s.receiver.Polling? || s.receiver.Holding?
    case StoreClosed => s.receiver.Leaving?
    case Clean => s.receiver.Cleaning? && s.reg.chan == []
    case LoadCount => s.receiver.Counting?
  }

  function HandSize(h: Option<Item>): nat {
    if h.Some? then 1 else 0
  }

  function HandKeys(h: Option<Item>): multiset<nat> {
    if h.Some? then multiset{h.value.sn} else multiset{}
  }

  function AfterExit(s: Conn, a: ExitAct): Conn
    requires CanExit(s, a)
  {
    match a
    case SawError => s.(receiver := Leaving(Hand(s.receiver)))
    case SawEmpty => s.(receiver := Leaving(None))
    case ReadFail =>
      var h := Hand(s.receiver);
      s.(receiver := Leaving(None), inflight := s.inflight - HandSize(h),
         log := s.log.(finished := s.log.finished + HandKeys(h)))
    case StoreClosed => s.(receiver := Cleaning(s.receiver.hand), closed := true)
    case Clean =>
      s.(receiver := Counting(s.receiver.hand), reg := Emptied(s.reg),
         inflight := s.inflight - Size(Batches(s.reg)))
    case LoadCount =>
      var h := s.receiver.hand;
      if s.reg.count > 0 then s.(receiver := Cleaning(h))
      else s.(receiver := Returned, inflight := s.inflight - HandSize(h), log := s.log.(lost := h))
  }

  // ---------- Runs ----------

  predicate Enabled(s: Conn, a: Action) {
    match a
    case Sending(b) => CanSend(s, b)
    case FinishOp => CanFinish(s)
    case Side(b) => CanSide(s, b)
    case Receiving(b) => CanRecv(s, b)
    case Exiting(b) => CanExit(s, b)
  }

  function Next(s: Conn, a: Action): Conn
    requires Enabled(s, a)
  {
    match a
    case Sending(b) => AfterSend(s, b)
    case FinishOp => AfterFinish(s)
    case Side(b) => AfterSide(s, b)
    case Receiving(b) => AfterRecv(s, b)
    case Exiting(b) => AfterExit(s, b)
  }

  predicate CanRun(s: Conn, acts: seq<Action>)
    decreases |acts|
  {
    acts == [] || (Enabled(s, acts[0]) && CanRun(Next(s, acts[0]), acts[1..]))
  }

  function Run(s: Conn, acts: seq<Action>): Conn
    requires CanRun(s, acts)
    decreases |acts|
  {
    if acts == [] then s else Run(Next(s, acts[0]), acts[1..])
  }

  // ---------- Numbers grow ----------

  predicate HasSn(p: Sender) {
    p.Encoded? || p.Written? || p.Guarded?
  }

  /** Every number handed out so far and not in the sender's hand is below this. */
  function Bound(s: Conn): nat {
    if HasSn(s.sender) then s.sender.sn else s.nextSn
  }

  ghost predicate SnOk(s: Conn) {
    HasSn(s.sender) ==> s.sender.sn < s.nextSn
  }

  ghost predicate Ordered(reg: State, history: seq<Item>, bound: nat) {
    && Wf(reg)
    && reg.processed < bound
    && (forall i :: 0 <= i < |reg.chan| ==> reg.chan[i].sn < bound)
    && ChannelOk(history, 0)
    && (forall i :: 0 <= i < |history| ==> history[i].sn < bound)
  }

  lemma SendBound(s: Conn, a: SendAct)
    requires SnOk(s) && CanSend(s, a)
    ensures SnOk(AfterSend(s, a)) && Bound(s) <= Bound(AfterSend(s, a))
    ensures a.Send? ==> Bound(s) == s.sender.sn < Bound(AfterSend(s, a))
  {
  }

  lemma FinishBound(s: Conn)
    requires SnOk(s) && CanFinish(s)
    ensures SnOk(AfterFinish(s)) && Bound(s) <= Bound(AfterFinish(s))
  {
  }

  lemma SideBound(s: Conn, a: SideAct)
    requires SnOk(s) && CanSide(s, a)
    ensures SnOk(AfterSide(s, a)) && Bound(s) <= Bound(AfterSide(s, a))
  {
  }

  lemma RecvBound(s: Conn, a: RecvAct)
    requires CanRecv(s, a)
    ensures AfterRecv(s, a).sender == s.sender && AfterRecv(s, a).nextSn == s.nextSn
    ensures AfterRecv(s, a).log.(finished := s.log.finished) == s.log
  {
  }

  lemma ExitBound(s: Conn, a: ExitAct)
    requires CanExit(s, a)
    ensures AfterExit(s, a).sender == s.sender && AfterExit(s, a).nextSn == s.nextSn
    ensures AfterExit(s, a).log.(finished := s.log.finished, lost := s.log.lost) == s.log
  {
  }

  // ---------- The sender's ledger ----------

  /** No step is repeated later in a list of things to do, except the idempotent stores. */
  predicate Once(todo: seq<Op>) {
    todo == [] || ((todo[0].Rollback? || todo[0].HandleError? ==> todo[0] !in todo[1..]) && Once(todo[1..]))
  }

  ghost predicate TodoOk(p: Sender) {
    p.Finishing? ==> Once(p.todo)
  }

  lemma OnceWriteFailed()
    ensures Once(WRITE_FAILED)
  {
    assert Once(WRITE_FAILED[5..]);
    assert WRITE_FAILED[4..][1..] == WRITE_FAILED[5..];
    assert WRITE_FAILED[3..][1..] == WRITE_FAILED[4..];
    assert WRITE_FAILED[2..][1..] == WRITE_FAILED[3..];
    assert WRITE_FAILED[1..][1..] == WRITE_FAILED[2..];
  }

  lemma TodoHead(todo: seq<Op>)
    requires todo != [] && Once(todo)
    ensures Once(todo[1..])
    ensures Rollback in todo <==> todo[0] == Rollback || Rollback in todo[1..]
    ensures HandleError in todo <==> todo[0] == HandleError || HandleError in todo[1..]
    ensures todo[0].Rollback? || todo[0].HandleError? ==> todo[0] !in todo[1..]
  {
    assert todo == [todo[0]] + todo[1..];
  }

  /** The task the sender still answers for. */
  function Carried(p: Sender): Option<nat> {
    match p
    case Finishing(todo, id, _) => if HandleError in todo then Some(id) else None
    case Idle => None
    case Throttling => None
    case Pinging => None
    case Gone => None
    case _ => Some(p.id)
  }

  function Ids(items: seq<Item>): multiset<nat> {
    if items == [] then multiset{} else multiset{items[0].id} + Ids(items[1..])
  }

  function One(b: bool): nat {
    if b then 1 else 0
  }

  /** Each task given to send_task failed, was dropped as not encodable, was registered, or is
      still with the sender: exactly one of these. */
  ghost predicate TaskLedger(log: Log, carried: Option<nat>, id: nat) {
    log.submitted[id] == log.failed[id] + log.dropped[id] + Ids(log.history)[id] + One(carried == Some(id))
  }

  lemma {:induction false} IdsAppend(items: seq<Item>, it: Item)
    ensures Ids(items + [it]) == Ids(items) + multiset{it.id}
  {
    if items != [] {
      assert (items + [it])[1..] == items[1..] + [it];
      IdsAppend(items[1..], it);
    }
  }

  lemma RegisteredTask(log: Log, it: Item, id: nat)
    requires TaskLedger(log, Some(it.id), id)
    ensures TaskLedger(log.(history := log.history + [it]), None, id)
  {
    IdsAppend(log.history, it);
  }

  datatype TaskEvent = Kept | Submitted | Failed | Dropped | Registered(sn: nat)

  /** What a step does to the sender's ledger. */
  ghost predicate TaskStep(e: TaskEvent, l: Log, c: Option<nat>, m: Log, d: Option<nat>) {
    match e
    case Kept => d == c && m == l
    case Submitted => c.None? && d.Some? && m == l.(submitted := l.submitted + multiset{d.value})
    case Failed => c.Some? && d.None? && m == l.(failed := l.failed + multiset{c.value})
    case Dropped => c.Some? && d.None? && m == l.(dropped := l.dropped + multiset{c.value})
    case Registered(sn) => c.Some? && d.None? && m == l.(history := l.history + [Item(sn, c.value)])
  }

  lemma TaskStepKeeps(e: TaskEvent, l: Log, c: Option<nat>, m: Log, d: Option<nat>, id: nat)
    requires TaskStep(e, l, c, m, d) && TaskLedger(l, c, id)
    ensures TaskLedger(m, d, id)
  {
    if e.Registered? { RegisteredTask(l, Item(e.sn, c.value), id); }
  }

  lemma SendTasks(s: Conn, a: SendAct) returns (e: TaskEvent)
    requires CanSend(s, a)
    ensures TaskStep(e, s.log, Carried(s.sender), AfterSend(s, a).log, Carried(AfterSend(s, a).sender))
  {
    e := match a
         case Enter(_, _) => Submitted
         case Encode(ok) => if ok then Kept else Dropped
         case Send => Registered(s.sender.sn)
         case _ => Kept;
  }

  lemma SendTodo(s: Conn, a: SendAct)
    requires TodoOk(s.sender) && CanSend(s, a)
    ensures TodoOk(AfterSend(s, a).sender)
  {
    if a.Write? {
      OnceWriteFailed();
    } else if a.LoadClosed? {
      assert Once([Rollback]) && [HandleError, Rollback][1..] == [Rollback];
    } else if a.Encode? {
      assert Once([SetErr]) && [SetClosed, SetErr][1..] == [SetErr];
    }
  }

  lemma FinishTasks(s: Conn) returns (e: TaskEvent)
    requires TodoOk(s.sender) && CanFinish(s)
    ensures TaskStep(e, s.log, Carried(s.sender), AfterFinish(s).log, Carried(AfterFinish(s).sender))
    ensures TodoOk(AfterFinish(s).sender)
  {
    TodoHead(s.sender.todo);
    e := if s.sender.todo[0].HandleError? then Failed else Kept;
  }

  lemma SideTasks(s: Conn, a: SideAct)
    requires TodoOk(s.sender) && CanSide(s, a)
    ensures AfterSide(s, a).log == s.log && Carried(s.sender) == None == Carried(AfterSide(s, a).sender)
    ensures TodoOk(AfterSide(s, a).sender)
  {
  }

  // ---------- The registry's ledger ----------

  /** Each registered number is held by the registry, timed out, cleaned up, in the receiver's
      hand, finished, or lost with an abandoned read: exactly one of these. */
  ghost predicate NumberLedger(reg: State, log: Log, hand: Option<Item>, q: nat) {
    ChannelKeys(log.history)[q] ==
    Held(reg)[q] + reg.timedOut[q] + reg.cleaned[q] + log.finished[q] + HandKeys(hand)[q] + HandKeys(log.lost)[q]
  }

  datatype NumberEvent = Untouched | Added(it: Item) | Moved | Took(it: Item) | Finished | Lost

  /** What a step does to the registry's ledger. */
  ghost predicate NumberStep(e: NumberEvent, r: State, l: Log, h: Option<Item>, t: State, m: Log, g: Option<Item>) {
    match e
    case Untouched => g == h && t == r.(count := t.count, stopped := t.stopped) &&
                      m.history == l.history && m.finished == l.finished && m.lost == l.lost
    case Added(it) => g == h && t == Register(r, it) && m == l.(history := l.history + [it])
    case Moved => g == h && m == l && ((r.chan != [] && t == Got(r)) || t == Adjusted(r) || t == Emptied(r))
    case Took(it) => h.None? && g == Some(it) == Find(Batches(r), it.sn) && it.sn <= r.processed &&
                     m == l && t == Without(r, it.sn)
    case Finished => g.None? && t == r && m == l.(finished := l.finished + HandKeys(h))
    case Lost => g.None? && t == r && l.lost.None? && m == l.(lost := h)
  }

  lemma NumberStepKeeps(e: NumberEvent, r: State, l: Log, h: Option<Item>, t: State, m: Log, g: Option<Item>, q: nat)
    requires Wf(r) && NumberStep(e, r, l, h, t, m, g) && NumberLedger(r, l, h, q)
    ensures NumberLedger(t, m, g, q)
  {
    match e
    case Untouched => SameHeld(r, t);
    case Added(it) => RegisteredNumber(r, l, h, it, q);
    case Moved => MovedNumber(r, l, h, t, q);
    case Took(it) => TakenNumber(r, l, it, q);
    case Finished =>
    case Lost =>
  }

  /** Whatever a step does to the registry, numbers keep growing along it. */
  lemma OrderedStep(e: NumberEvent, r: State, l: Log, h: Option<Item>, t: State, m: Log, g: Option<Item>, b: nat,
                    c: nat)
    requires Ordered(r, l.history, b) && NumberStep(e, r, l, h, t, m, g)
    requires b <= c && (e.Added? ==> e.it.sn == b < c)
    ensures Ordered(t, m.history, c)
  {
    match e
    case Untouched => SameHeld(r, t);
    case Added(it) => RegisterKeeps(r, it);
    case Moved => MovedOrder(r, t, b);
    case Took(it) => WithoutKeeps(r, it.sn);
    case Finished =>
    case Lost =>
  }

  lemma MovedOrder(r: State, t: State, b: nat)
    requires Wf(r) && r.processed < b && forall i :: 0 <= i < |r.chan| ==> r.chan[i].sn < b
    requires (r.chan != [] && t == Got(r)) || t == Adjusted(r) || t == Emptied(r)
    ensures Wf(t) && t.processed < b && forall i :: 0 <= i < |t.chan| ==> t.chan[i].sn < b
  {
    if r.chan != [] && t == Got(r) {
      GotKeeps(r);
    } else if t == Adjusted(r) {
      AdjustedKeeps(r);
    } else {
      EmptiedKeeps(r);
    }
  }

  lemma SameHeld(r: State, t: State)
    requires t == r.(count := t.count, stopped := t.stopped)
    ensures Held(t) == Held(r) && Batches(t) == Batches(r)
  {
    assert Batches(t) == Batches(r);
  }

  lemma RegisteredNumber(r: State, l: Log, h: Option<Item>, it: Item, q: nat)
    requires NumberLedger(r, l, h, q)
    ensures NumberLedger(Register(r, it), l.(history := l.history + [it]), h, q)
  {
    RegisterHeld(r, it);
    ChannelKeysAppend(l.history, it);
  }

  lemma MovedNumber(r: State, l: Log, h: Option<Item>, t: State, q: nat)
    requires Wf(r) && NumberLedger(r, l, h, q)
    requires (r.chan != [] && t == Got(r)) || t == Adjusted(r) || t == Emptied(r)
    ensures NumberLedger(t, l, h, q)
  {
    if r.chan != [] && t == Got(r) {
      GotHeld(r);
    } else if t == Adjusted(r) {
      AdjustedHeldAt(r, q);
    } else {
      EmptiedHeldAt(r, q);
    }
  }

  lemma TakenNumber(r: State, l: Log, it: Item, q: nat)
    requires Wf(r) && NumberLedger(r, l, None, q) && Find(Batches(r), it.sn) == Some(it)
    ensures NumberLedger(Without(r, it.sn), l, Some(it), q)
  {
    TakenHeld(r, it.sn);
  }

  lemma AdjustedHeldAt(s: State, q: nat)
    requires |s.delay| <= s.timeout
    ensures Held(Adjusted(s))[q] + Adjusted(s).timedOut[q] == Held(s)[q] + s.timedOut[q]
    ensures Adjusted(s).cleaned == s.cleaned
  {
    AdjustedHeld(s);
    assert (Held(Adjusted(s)) + Adjusted(s).timedOut)[q] == (Held(s) + s.timedOut)[q];
  }

  lemma EmptiedHeldAt(s: State, q: nat)
    ensures Held(Emptied(s))[q] + Emptied(s).cleaned[q] == Held(s)[q] + s.cleaned[q]
    ensures Emptied(s).timedOut == s.timedOut
  {
    EmptiedHeld(s);
    assert (Held(Emptied(s)) + Emptied(s).cleaned)[q] == (Held(s) + s.cleaned)[q];
  }

  ghost predicate StepNumbers(e: NumberEvent, s: Conn, t: Conn) {
    NumberStep(e, s.reg, s.log, Hand(s.receiver), t.reg, t.log, Hand(t.receiver))
  }

  lemma SendNumbers(s: Conn, a: SendAct) returns (e: NumberEvent)
    requires CanSend(s, a)
    ensures StepNumbers(e, s, AfterSend(s, a)) && (e.Added? ==> a.Send? && e.it.sn == s.sender.sn)
  {
    e := if a.Send? then Added(Item(s.sender.sn, s.sender.id)) else Untouched;
  }

  lemma FinishNumbers(s: Conn)
    requires CanFinish(s)
    ensures StepNumbers(Untouched, s, AfterFinish(s))
  {
  }

  lemma SideNumbers(s: Conn, a: SideAct)
    requires CanSide(s, a)
    ensures StepNumbers(Untouched, s, AfterSide(s, a))
  {
  }

  lemma RecvNumbers(s: Conn, a: RecvAct) returns (e: NumberEvent)
    requires Wf(s.reg) && CanRecv(s, a)
    ensures StepNumbers(e, s, AfterRecv(s, a))
  {
    match a
    case TimeReach => e := Moved;
    case Drain => e := Moved;
    case FinishResp => e := Finished;
    case Resolve =>
      var q := s.receiver.sn;
      if q <= s.reg.processed && Find(Batches(s.reg), q).Some? {
        var _ := TheBatch(s.reg, q);
        e := Took(Find(Batches(s.reg), q).value);
      } else {
        e := Untouched;
      }
    case _ => e := Untouched;
  }

  /** Nothing is lost before the loop returns. */
  ghost predicate NotYetLost(s: Conn) {
    !s.receiver.Returned? ==> s.log.lost.None?
  }

  lemma ExitNumbers(s: Conn, a: ExitAct) returns (e: NumberEvent)
    requires CanExit(s, a) && NotYetLost(s)
    ensures StepNumbers(e, s, AfterExit(s, a)) && NotYetLost(AfterExit(s, a))
  {
    e := match a
         case ReadFail => Finished
         case Clean => Moved
         case LoadCount => if s.reg.count > 0 then Untouched else Lost
         case _ => Untouched;
  }

  // ---------- The counters ----------

  /** The pending counter owes one to the sender from its increment to registration or rollback. */
  predicate Owed(p: Sender) {
    match p
    case Finishing(todo, _, _) => Rollback in todo
    case Counted(_, _) => true
    case Checked(_, _) => true
    case _ => HasSn(p)
  }

  ghost predicate PendingCounter(s: Conn) {
    s.reg.count == |s.reg.chan| + One(Owed(s.sender)) + |s.log.dropped|
  }

  ghost predicate FlightCounter(s: Conn) {
    s.inflight == HeldSize(s.reg) + One(s.sender.Guarded?) + HandSize(Hand(s.receiver))
  }

  lemma SendPending(s: Conn, a: SendAct)
    requires PendingCounter(s) && CanSend(s, a)
    ensures PendingCounter(AfterSend(s, a))
  {
  }

  lemma FinishPending(s: Conn)
    requires TodoOk(s.sender) && PendingCounter(s) && CanFinish(s)
    ensures PendingCounter(AfterFinish(s))
  {
    TodoHead(s.sender.todo);
  }

  lemma SidePending(s: Conn, a: SideAct)
    requires PendingCounter(s) && CanSide(s, a)
    ensures PendingCounter(AfterSide(s, a))
  {
  }

  lemma RecvPending(s: Conn, a: RecvAct)
    requires PendingCounter(s) && CanRecv(s, a)
    ensures PendingCounter(AfterRecv(s, a))
  {
  }

  lemma ExitPending(s: Conn, a: ExitAct)
    requires PendingCounter(s) && CanExit(s, a)
    ensures PendingCounter(AfterExit(s, a))
  {
  }

  lemma SendFlight(s: Conn, a: SendAct)
    requires FlightCounter(s) && CanSend(s, a)
    ensures FlightCounter(AfterSend(s, a))
  {
    assert Batches(AfterSend(s, a).reg) == Batches(s.reg);
  }

  lemma FinishFlight(s: Conn)
    requires FlightCounter(s) && CanFinish(s)
    ensures FlightCounter(AfterFinish(s))
  {
    assert Batches(AfterFinish(s).reg) == Batches(s.reg);
  }

  lemma SideFlight(s: Conn, a: SideAct)
    requires FlightCounter(s) && CanSide(s, a)
    ensures FlightCounter(AfterSide(s, a))
  {
  }

  lemma RecvFlight(s: Conn, a: RecvAct)
    requires Wf(s.reg) && FlightCounter(s) && CanRecv(s, a)
    ensures FlightCounter(AfterRecv(s, a))
  {
    match a
    case TimeReach => AdjustedSize(s.reg);
    case Drain => GotSize(s.reg);
    case Resolve =>
      if s.receiver.sn <= s.reg.processed && Find(Batches(s.reg), s.receiver.sn).Some? {
        TakenOnce(s.reg, s.receiver.sn);
      }
    case _ =>
  }

  lemma ExitFlight(s: Conn, a: ExitAct)
    requires FlightCounter(s) && CanExit(s, a)
    ensures FlightCounter(AfterExit(s, a))
  {
    if a.Clean? { CleanFlight(s); }
  }

  lemma CleanFlight(s: Conn)
    requires FlightCounter(s) && CanExit(s, Clean)
    ensures FlightCounter(AfterExit(s, Clean))
  {
    EmptiedSize(s.reg);
  }

  // ---------- The window ----------

  predicate BeforeGuard(p: Sender) {
    p.Entered? || p.Counted? || p.Checked? || p.Encoded? || p.Written?
  }

  ghost predicate Windowed(s: Conn) {
    && s.limit >= 1
    && s.inflight <= s.limit + One(s.sender.Guarded? || s.sender.Throttling?)
    && (BeforeGuard(s.sender) && !s.sender.flush ==> s.inflight < s.limit)
    && (s.sender.Guarded? && !s.sender.flush ==> s.inflight <= s.limit)
    && ((s.sender.Written? || s.sender.Guarded?) && s.sender.flush ==> s.unflushed == 0)
    && (s.sender.Throttling? && s.inflight > s.limit ==> s.unflushed == 0)
  }

  lemma SendWindow(s: Conn, a: SendAct)
    requires Windowed(s) && CanSend(s, a)
    ensures Windowed(AfterSend(s, a))
  {
  }

  lemma FinishWindow(s: Conn)
    requires Windowed(s) && CanFinish(s)
    ensures Windowed(AfterFinish(s))
  {
  }

  lemma SideWindow(s: Conn, a: SideAct)
    requires Windowed(s) && CanSide(s, a)
    ensures Windowed(AfterSide(s, a))
  {
  }

  lemma RecvWindow(s: Conn, a: RecvAct)
    requires Windowed(s) && CanRecv(s, a)
    ensures Windowed(AfterRecv(s, a))
  {
  }

  lemma ExitWindow(s: Conn, a: ExitAct)
    requires Windowed(s) && CanExit(s, a)
    ensures Windowed(AfterExit(s, a))
  {
  }

  // ---------- The shutdown handshake ----------

  predicate PastCheck(p: Sender) {
    p.Checked? || HasSn(p)
  }

  ghost predicate Handshake(s: Conn) {
    && (s.receiver.Cleaning? || s.receiver.Counting? || s.receiver.Returned? ==> s.closed)
    && (s.receiver.Counting? || s.receiver.Returned? ==> AllEmpty(Batches(s.reg)))
    && (s.receiver.Returned? ==> s.reg.chan == [] && |s.log.dropped| == 0 && !PastCheck(s.sender))
  }

  lemma SendHandshake(s: Conn, a: SendAct)
    requires Handshake(s) && CanSend(s, a)
    ensures Handshake(AfterSend(s, a))
  {
    assert Batches(AfterSend(s, a).reg) == Batches(s.reg);
  }

  lemma FinishHandshake(s: Conn)
    requires Handshake(s) && CanFinish(s)
    ensures Handshake(AfterFinish(s))
  {
    assert Batches(AfterFinish(s).reg) == Batches(s.reg);
  }

  lemma SideHandshake(s: Conn, a: SideAct)
    requires Handshake(s) && CanSide(s, a)
    ensures Handshake(AfterSide(s, a))
  {
  }

  lemma RecvHandshake(s: Conn, a: RecvAct)
    requires Handshake(s) && CanRecv(s, a)
    ensures Handshake(AfterRecv(s, a))
  {
  }

  lemma ExitHandshake(s: Conn, a: ExitAct)
    requires PendingCounter(s) && Handshake(s) && CanExit(s, a)
    ensures Handshake(AfterExit(s, a))
  {
    if a.Clean? { EmptiedHeld(s.reg); }
  }

  // ---------- Every reachable state ----------

  ghost predicate Inv(s: Conn) {
    && SnOk(s) && TodoOk(s.sender) && NotYetLost(s)
    && Ordered(s.reg, s.log.history, Bound(s))
    && (forall id :: TaskLedger(s.log, Carried(s.sender), id))
    && (forall q :: NumberLedger(s.reg, s.log, Hand(s.receiver), q))
    && PendingCounter(s) && FlightCounter(s) && Windowed(s) && Handshake(s)
  }

  lemma NumbersKept(e: NumberEvent, s: Conn, t: Conn)
    requires Inv(s) && StepNumbers(e, s, t)
    requires Bound(s) <= Bound(t) && (e.Added? ==> e.it.sn == Bound(s) < Bound(t))
    ensures Ordered(t.reg, t.log.history, Bound(t))
    ensures forall q :: NumberLedger(t.reg, t.log, Hand(t.receiver), q)
  {
    OrderedStep(e, s.reg, s.log, Hand(s.receiver), t.reg, t.log, Hand(t.receiver), Bound(s), Bound(t));
    forall q ensures NumberLedger(t.reg, t.log, Hand(t.receiver), q) {
      NumberStepKeeps(e, s.reg, s.log, Hand(s.receiver), t.reg, t.log, Hand(t.receiver), q);
    }
  }

  lemma TasksKept(e: TaskEvent, s: Conn, t: Conn)
    requires Inv(s) && TaskStep(e, s.log, Carried(s.sender), t.log, Carried(t.sender))
    ensures forall id :: TaskLedger(t.log, Carried(t.sender), id)
  {
    forall id ensures TaskLedger(t.log, Carried(t.sender), id) {
      TaskStepKeeps(e, s.log, Carried(s.sender), t.log, Carried(t.sender), id);
    }
  }

  lemma SendKeeps(s: Conn, a: SendAct)
    requires Inv(s) && CanSend(s, a)
    ensures Inv(AfterSend(s, a))
  {
    var t := AfterSend(s, a);
    SendBound(s, a);
    var e := SendNumbers(s, a);
    NumbersKept(e, s, t);
    var f := SendTasks(s, a);
    TasksKept(f, s, t);
    SendTodo(s, a); SendPending(s, a); SendFlight(s, a); SendWindow(s, a); SendHandshake(s, a);
  }

  lemma FinishKeeps(s: Conn)
    requires Inv(s) && CanFinish(s)
    ensures Inv(AfterFinish(s))
  {
    var t := AfterFinish(s);
    FinishBound(s);
    FinishNumbers(s);
    NumbersKept(Untouched, s, t);
    var f := FinishTasks(s);
    TasksKept(f, s, t);
    FinishPending(s); FinishFlight(s); FinishWindow(s); FinishHandshake(s);
  }

  lemma SideKeeps(s: Conn, a: SideAct)
    requires Inv(s) && CanSide(s, a)
    ensures Inv(AfterSide(s, a))
  {
    var t := AfterSide(s, a);
    SideBound(s, a);
    SideNumbers(s, a);
    NumbersKept(Untouched, s, t);
    SideTasks(s, a);
    TasksKept(Kept, s, t);
    SidePending(s, a); SideFlight(s, a); SideWindow(s, a); SideHandshake(s, a);
  }

  lemma RecvKeeps(s: Conn, a: RecvAct)
    requires Inv(s) && CanRecv(s, a)
    ensures Inv(AfterRecv(s, a))
  {
    var t := AfterRecv(s, a);
    RecvBound(s, a);
    var e := RecvNumbers(s, a);
    NumbersKept(e, s, t);
    assert forall id :: TaskLedger(s.log, Carried(s.sender), id) ==> TaskLedger(t.log, Carried(t.sender), id);
    RecvPending(s, a); RecvFlight(s, a); RecvWindow(s, a); RecvHandshake(s, a);
  }

  lemma ExitKeeps(s: Conn, a: ExitAct)
    requires Inv(s) && CanExit(s, a)
    ensures Inv(AfterExit(s, a))
  {
    var t := AfterExit(s, a);
    ExitBound(s, a);
    var e := ExitNumbers(s, a);
    NumbersKept(e, s, t);
    assert forall id :: TaskLedger(s.log, Carried(s.sender), id) ==> TaskLedger(t.log, Carried(t.sender), id);
    ExitPending(s, a); ExitFlight(s, a); ExitWindow(s, a); ExitHandshake(s, a);
  }

  lemma StepKeeps(s: Conn, a: Action)
    requires Inv(s) && Enabled(s, a)
    ensures Inv(Next(s, a))
  {
    match a
    case Sending(b) => SendKeeps(s, b);
    case FinishOp => FinishKeeps(s);
    case Side(b) => SideKeeps(s, b);
    case Receiving(b) => RecvKeeps(s, b);
    case Exiting(b) => ExitKeeps(s, b);
  }

  lemma InitialInv(timeout: nat, thresholds: nat)
    ensures Inv(Initial(timeout, thresholds))
  {
    var s := Initial(timeout, thresholds);
    assert Batches(s.reg) == [map[]];
    BatchKeysOne(map[]);
    assert multiset(s.reg.sent.Keys) == multiset{};
    assert Size([map[]]) == 0 by { SizeZero([map[]]); }
  }

  lemma {:induction false} RunKeeps(s: Conn, acts: seq<Action>)
    requires Inv(s) && CanRun(s, acts)
    ensures Inv(Run(s, acts))
    decreases |acts|
  {
    if acts != [] {
      StepKeeps(s, acts[0]);
      RunKeeps(Next(s, acts[0]), acts[1..]);
    }
  }

  /** The states some interleaving leads to. */
  ghost predicate Reachable(s: Conn) {
    exists timeout: nat, thresholds: nat, acts ::
      CanRun(Initial(timeout, thresholds), acts) && Run(Initial(timeout, thresholds), acts) == s
  }

  lemma ReachableInv(s: Conn)
    requires Reachable(s)
    ensures Inv(s)
  {
    var timeout: nat, thresholds: nat, acts :|
      CanRun(Initial(timeout, thresholds), acts) && Run(Initial(timeout, thresholds), acts) == s;
    InitialInv(timeout, thresholds);
    RunKeeps(Initial(timeout, thresholds), acts);
  }

  // ---------- Main results ----------

  /** The pending counter never lies: it is the channel's length, plus one while the sender is
      between raising it and registering or rolling back, plus one for each task whose encoding
      failed. So no decrement ever meets zero. */
  lemma CounterConservation(s: Conn)
    requires Reachable(s)
    ensures s.reg.count == |s.reg.chan| + One(Owed(s.sender)) + |s.log.dropped|
    ensures Enabled(s, Receiving(Drain)) || (CanFinish(s) && s.sender.todo[0] == Rollback) ==> s.reg.count >= 1
  {
    ReachableInv(s);
  }

  /** The window: at most limit + 1 requests are in flight and the count is exact; registration
      never meets a full channel; a sender held back by the window has flushed every request. */
  lemma WindowSafety(s: Conn)
    requires Reachable(s)
    ensures s.inflight == HeldSize(s.reg) + One(s.sender.Guarded?) + HandSize(Hand(s.receiver)) <= s.limit + 1
    ensures s.sender.Guarded? ==> Enabled(s, Sending(Send))
    ensures s.sender.Throttling? && !Enabled(s, Sending(Unthrottle)) ==> s.unflushed == 0
  {
    ReachableInv(s);
  }

  lemma {:induction false} DistinctKeys(chan: seq<Item>, lo: nat, q: nat)
    requires ChannelOk(chan, lo)
    ensures ChannelKeys(chan)[q] == One(FindChannel(chan, q).Some?)
    ensures q <= lo ==> ChannelKeys(chan)[q] == 0
  {
    if chan != [] { DistinctKeys(chan[1..], chan[0].sn, q); }
  }

  /** Each task given to send_task, and each number registered, is in exactly one place: the sum
      of its occurrences over all the places it can be is one. */
  lemma ExactlyOnce(s: Conn, q: nat)
    requires Reachable(s)
    ensures Held(s.reg)[q] + s.reg.timedOut[q] + s.reg.cleaned[q] + s.log.finished[q]
            + HandKeys(Hand(s.receiver))[q] + HandKeys(s.log.lost)[q] == One(FindChannel(s.log.history, q).Some?)
    ensures s.log.submitted[q] ==
            s.log.failed[q] + s.log.dropped[q] + Ids(s.log.history)[q] + One(Carried(s.sender) == Some(q))
  {
    ReachableInv(s);
    DistinctKeys(s.log.history, 0, q);
    assert NumberLedger(s.reg, s.log, Hand(s.receiver), q) && TaskLedger(s.log, Carried(s.sender), q);
  }

  lemma NothingHeld(r: State)
    requires r.chan == [] && AllEmpty(Batches(r))
    ensures Held(r) == multiset{}
  {
    BatchKeysEmpty(Batches(r));
  }

  // ---------- The abandoned read ----------

  /** The task of a read that was given up, while the loop ends and after. */
  function Abandoned(s: Conn): Option<Item> {
    match s.receiver
    case Leaving(h) => h
    case Cleaning(h) => h
    case Counting(h) => h
    case _ => s.log.lost
  }

  /** Some step of the run sees `has_err` while the body of the response to `it` is being read. */
  ghost predicate Abandons(s: Conn, acts: seq<Action>, it: Item)
    requires CanRun(s, acts)
    decreases |acts|
  {
    acts != [] &&
    ((acts[0] == Exiting(SawError) && s.receiver == Holding(it)) || Abandons(Next(s, acts[0]), acts[1..], it))
  }

  lemma SendAbandons(s: Conn, b: SendAct)
    requires CanSend(s, b)
    ensures Abandoned(AfterSend(s, b)) == Abandoned(s) && AfterSend(s, b).hasErr == s.hasErr
  {
  }

  lemma RecvAbandons(s: Conn, b: RecvAct)
    requires CanRecv(s, b)
    ensures Abandoned(AfterRecv(s, b)) == Abandoned(s) && AfterRecv(s, b).hasErr == s.hasErr
  {
  }

  lemma ExitAbandons(s: Conn, b: ExitAct)
    requires NotYetLost(s) && CanExit(s, b)
    ensures Abandoned(AfterExit(s, b)) == if b == SawError then Hand(s.receiver) else Abandoned(s)
    ensures AfterExit(s, b).hasErr == s.hasErr
  {
  }

  lemma AbandonStep(s: Conn, a: Action)
    requires NotYetLost(s) && Enabled(s, a)
    ensures Abandoned(Next(s, a)) == if a == Exiting(SawError) then Hand(s.receiver) else Abandoned(s)
    ensures s.hasErr ==> Next(s, a).hasErr
  {
    match a
    case Sending(b) => SendAbandons(s, b);
    case FinishOp =>
    case Side(b) =>
    case Receiving(b) => RecvAbandons(s, b);
    case Exiting(b) => ExitAbandons(s, b);
  }

  lemma {:induction false} RunAbandons(s: Conn, acts: seq<Action>, it: Item)
    requires Inv(s) && CanRun(s, acts)
    ensures Abandoned(Run(s, acts)) == Some(it) <==> Abandoned(s) == Some(it) || Abandons(s, acts, it)
    decreases |acts|
  {
    if acts != [] {
      StepKeeps(s, acts[0]);
      AbandonStep(s, acts[0]);
      RunAbandons(Next(s, acts[0]), acts[1..], it);
    }
  }

  /** Over every run to the return of the loop a task is lost if and only if the loop saw `has_err`
      while it was reading the response to that very task. */
  lemma LostExactly(timeout: nat, thresholds: nat, acts: seq<Action>, it: Item)
    requires CanRun(Initial(timeout, thresholds), acts) && Run(Initial(timeout, thresholds), acts).receiver.Returned?
    ensures Run(Initial(timeout, thresholds), acts).log.lost == Some(it)
            <==> Abandons(Initial(timeout, thresholds), acts, it)
  {
    InitialInv(timeout, thresholds);
    RunAbandons(Initial(timeout, thresholds), acts, it);
  }

  lemma {:induction false} RunNeedsError(s: Conn, acts: seq<Action>)
    requires Inv(s) && CanRun(s, acts) && (Abandoned(s).Some? ==> s.hasErr)
    ensures Abandoned(Run(s, acts)).Some? ==> Run(s, acts).hasErr
    decreases |acts|
  {
    if acts != [] {
      StepKeeps(s, acts[0]);
      AbandonStep(s, acts[0]);
      RunNeedsError(Next(s, acts[0]), acts[1..]);
    }
  }

  /** Nothing is lost unless `has_err` was set. */
  lemma LostNeedsError(s: Conn)
    requires Reachable(s) && s.log.lost.Some?
    ensures s.hasErr
  {
    var timeout: nat, thresholds: nat, acts :|
      CanRun(Initial(timeout, thresholds), acts) && Run(Initial(timeout, thresholds), acts) == s;
    InitialInv(timeout, thresholds);
    RunNeedsError(Initial(timeout, thresholds), acts);
    if s.receiver.Leaving? || s.receiver.Cleaning? || s.receiver.Counting? { ReachableInv(s); }
  }

  // ---------- After the loop ----------

  /** When receive_loop returns, the registry is empty, so every registered task has been
      finished, timed out, cleaned up, or lost with the one read the loop abandoned; and without
      `has_err` none was lost. */
  lemma ShutdownHandshake(s: Conn, q: nat)
    requires Reachable(s) && s.receiver.Returned?
    ensures s.closed && s.reg.chan == [] && AllEmpty(Batches(s.reg))
    ensures s.reg.timedOut[q] + s.reg.cleaned[q] + s.log.finished[q] + HandKeys(s.log.lost)[q]
            == One(FindChannel(s.log.history, q).Some?)
    ensures !s.hasErr ==> s.log.lost.None?
    ensures !s.hasErr ==>
            s.reg.timedOut[q] + s.reg.cleaned[q] + s.log.finished[q] == One(FindChannel(s.log.history, q).Some?)
  {
    ReachableInv(s);
    ExactlyOnce(s, q);
    NothingHeld(s.reg);
    if s.log.lost.Some? { LostNeedsError(s); }
  }

  lemma StepAfterReturn(s: Conn, a: Action)
    requires Inv(s) && s.receiver.Returned? && Enabled(s, a)
    ensures Next(s, a).receiver.Returned?
    ensures Next(s, a).log.history == s.log.history && Next(s, a).log.dropped == s.log.dropped
  {
  }

  lemma {:induction false} RunAfterReturn(s: Conn, acts: seq<Action>)
    requires Inv(s) && s.receiver.Returned? && CanRun(s, acts)
    ensures Run(s, acts).receiver.Returned?
    ensures Run(s, acts).log.history == s.log.history && Run(s, acts).log.dropped == s.log.dropped
    decreases |acts|
  {
    if acts != [] {
      StepAfterReturn(s, acts[0]);
      StepKeeps(s, acts[0]);
      RunAfterReturn(Next(s, acts[0]), acts[1..]);
    }
  }

  /** After the loop has returned every task given to send_task ends in error_handle: between two
      moments at which the sender carries no task, as many are handed over as were submitted. */
  lemma LaterSendsFail(s: Conn, acts: seq<Action>, id: nat)
    requires Reachable(s) && s.receiver.Returned? && CanRun(s, acts)
    ensures var t := Run(s, acts);
            && t.closed && t.log.history == s.log.history
            && t.log.submitted[id] + s.log.failed[id] + One(Carried(s.sender) == Some(id)) ==
               s.log.submitted[id] + t.log.failed[id] + One(Carried(t.sender) == Some(id))
  {
    ReachableInv(s);
    RunKeeps(s, acts);
    RunAfterReturn(s, acts);
    var t := Run(s, acts);
    assert TaskLedger(s.log, Carried(s.sender), id) && TaskLedger(t.log, Carried(t.sender), id);
  }

  lemma StepWhenClosed(s: Conn, a: Action)
    requires s.closed && Enabled(s, a)
    ensures Next(s, a).closed
    ensures |Next(s, a).log.history| + One(PastCheck(Next(s, a).sender)) <= |s.log.history| + One(PastCheck(s.sender))
    ensures |Next(s, a).log.dropped| >= |s.log.dropped|
  {
    match a
    case Sending(b) => SendWhenClosed(s, b);
    case FinishOp =>
    case Side(b) =>
    case Receiving(b) => RecvBound(s, b);
    case Exiting(b) => ExitBound(s, b);
  }

  lemma SendWhenClosed(s: Conn, a: SendAct)
    requires s.closed && CanSend(s, a)
    ensures AfterSend(s, a).closed && |AfterSend(s, a).log.dropped| >= |s.log.dropped|
    ensures |AfterSend(s, a).log.history| + One(PastCheck(AfterSend(s, a).sender))
            <= |s.log.history| + One(PastCheck(s.sender))
  {
  }

  /** Once `closed` is set at most one more task is ever registered: the one already past the check. */
  lemma {:induction false} ClosedStopsRegistration(s: Conn, acts: seq<Action>)
    requires s.closed && CanRun(s, acts)
    ensures Run(s, acts).closed
    ensures |Run(s, acts).log.history| <= |s.log.history| + One(PastCheck(s.sender))
    ensures |Run(s, acts).log.dropped| >= |s.log.dropped|
    decreases |acts|
  {
    if acts != [] {
      StepWhenClosed(s, acts[0]);
      ClosedStopsRegistration(Next(s, acts[0]), acts[1..]);
    }
  }

  lemma RunCons(s: Conn, a: Action, rest: seq<Action>)
    requires Enabled(s, a) && CanRun(Next(s, a), rest)
    ensures CanRun(s, [a] + rest) && Run(s, [a] + rest) == Run(Next(s, a), rest)
  {
    assert ([a] + rest)[1..] == rest;
  }

  lemma {:induction false} RunAppend(s: Conn, acts: seq<Action>, more: seq<Action>)
    requires CanRun(s, acts) && CanRun(Run(s, acts), more)
    ensures CanRun(s, acts + more) && Run(s, acts + more) == Run(Run(s, acts), more)
    decreases |acts|
  {
    if acts == [] {
      assert [] + more == more;
    } else {
      var n := Next(s, acts[0]);
      assert CanRun(n, acts[1..]) && Run(s, acts) == Run(n, acts[1..]);
      assert (acts + more)[0] == acts[0] && (acts + more)[1..] == acts[1..] + more;
      RunAppend(n, acts[1..], more);
    }
  }

  lemma DroppedGrows(s: Conn, a: Action)
    requires Enabled(s, a)
    ensures |Next(s, a).log.dropped| >= |s.log.dropped|
  {
    match a
    case Sending(b) =>
    case FinishOp =>
    case Side(b) =>
    case Receiving(b) => RecvBound(s, b);
    case Exiting(b) => ExitBound(s, b);
  }

  lemma {:induction false} RunDropped(s: Conn, acts: seq<Action>)
    requires CanRun(s, acts)
    ensures |Run(s, acts).log.dropped| >= |s.log.dropped|
    decreases |acts|
  {
    if acts != [] {
      DroppedGrows(s, acts[0]);
      RunDropped(Next(s, acts[0]), acts[1..]);
    }
  }

  /** After one failed encoding the receive loop never returns. */
  lemma EncodeFailureNeverReturns(s: Conn, acts: seq<Action>)
    requires Reachable(s) && |s.log.dropped| > 0 && CanRun(s, acts)
    ensures !Run(s, acts).receiver.Returned?
  {
    ReachableInv(s);
    RunKeeps(s, acts);
    RunDropped(s, acts);
  }

  /** How far a sender that owes the counter is from registration or rollback. */
  function Debt(p: Sender): nat {
    match p
    case Counted(_, _) => 3
    case Checked(_, _) => 5
    case Encoded(_, _, _) => 4
    case Written(_, _, _) => 3
    case Guarded(_, _, _) => 2
    case Finishing(todo, _, _) => |todo|
    case _ => 0
  }

  /** The next step of such a sender, its request encodable and its write accepted. */
  function Settling(p: Sender): Action
    requires Owed(p)
  {
    match p
    case Counted(_, _) => Sending(LoadClosed)
    case Checked(_, _) => Sending(Encode(true))
    case Encoded(_, _, _) => Sending(Write(true))
    case Written(_, _, _) => Sending(AddGuard)
    case Guarded(_, _, _) => Sending(Send)
    case _ => FinishOp
  }

  lemma SettlingStep(s: Conn)
    requires Inv(s) && s.closed && Owed(s.sender)
    ensures Enabled(s, Settling(s.sender))
    ensures var t := Next(s, Settling(s.sender));
            && t.receiver == s.receiver && t.closed && t.log.dropped == s.log.dropped
            && (Owed(t.sender) ==> Debt(t.sender) < Debt(s.sender))
  {
  }

  /** A sender that owes the counter can always pay on its own. */
  lemma {:induction false} SenderSettles(s: Conn) returns (acts: seq<Action>)
    requires Inv(s) && s.closed
    ensures CanRun(s, acts) && Inv(Run(s, acts))
    ensures var t := Run(s, acts); t.receiver == s.receiver && !Owed(t.sender) && t.log.dropped == s.log.dropped
    decreases if Owed(s.sender) then Debt(s.sender) + 1 else 0
  {
    acts := [];
    if Owed(s.sender) {
      var a := Settling(s.sender);
      SettlingStep(s);
      StepKeeps(s, a);
      var rest := SenderSettles(Next(s, a));
      RunCons(s, a, rest);
      acts := [a] + rest;
    }
  }

  lemma {:induction false} CleanUpAlone(s: Conn) returns (acts: seq<Action>)
    requires Inv(s) && s.receiver.Cleaning? && !Owed(s.sender) && |s.log.dropped| == 0
    ensures CanRun(s, acts) && Run(s, acts).receiver.Returned? && Run(s, acts).sender == s.sender
    decreases |s.reg.chan|
  {
    if s.reg.chan == [] {
      var t := AfterExit(s, Clean);
      acts := [Exiting(Clean)] + ([Exiting(LoadCount)] + []);
      RunCons(t, Exiting(LoadCount), []);
      RunCons(s, Exiting(Clean), [Exiting(LoadCount)] + []);
    } else {
      var t := AfterRecv(s, Drain);
      RecvKeeps(s, Drain);
      RecvBound(s, Drain);
      var rest := CleanUpAlone(t);
      acts := [Receiving(Drain)] + rest;
      RunCons(s, Receiving(Drain), rest);
    }
  }

  /** A loop that is cleaning up returns, whatever the sender was doing, if no encoding failed. */
  lemma CleanUpReturns(s: Conn) returns (acts: seq<Action>)
    requires Inv(s) && s.receiver.Cleaning? && |s.log.dropped| == 0
    ensures CanRun(s, acts) && Run(s, acts).receiver.Returned?
  {
    var first := SenderSettles(s);
    var rest := CleanUpAlone(Run(s, first));
    RunAppend(s, first, rest);
    acts := first + rest;
  }

  /** From the clean-up of any run the loop can still return if and only if no encoding failed. */
  lemma ReturnsExactly(s: Conn)
    requires Reachable(s) && s.receiver.Cleaning?
    ensures (exists acts :: CanRun(s, acts) && Run(s, acts).receiver.Returned?) <==> |s.log.dropped| == 0
  {
    ReachableInv(s);
    if |s.log.dropped| == 0 {
      var acts := CleanUpReturns(s);
    } else {
      forall acts | CanRun(s, acts) ensures !Run(s, acts).receiver.Returned? { EncodeFailureNeverReturns(s, acts); }
    }
  }

  // ---------- The window reopens ----------

  predicate ReceiverOnly(acts: seq<Action>) {
    forall i :: 0 <= i < |acts| ==> acts[i].Receiving? || acts[i].Exiting?
  }

  lemma {:induction false} ReceiverKeepsSender(s: Conn, acts: seq<Action>)
    requires CanRun(s, acts) && ReceiverOnly(acts)
    ensures Run(s, acts).sender == s.sender
    decreases |acts|
  {
    if acts != [] {
      var a := acts[0];
      assert a.Receiving? || a.Exiting?;
      if a.Receiving? { RecvBound(s, a.recv); } else { ExitBound(s, a.exit); }
      ReceiverKeepsSender(Next(s, a), acts[1..]);
    }
  }

  lemma {:induction false} DrainsAll(s: Conn) returns (acts: seq<Action>)
    requires Inv(s) && (Running(s.receiver) || s.receiver.Cleaning?)
    ensures CanRun(s, acts) && ReceiverOnly(acts)
    ensures var t := Run(s, acts); Inv(t) && t.receiver == s.receiver && t.reg.chan == []
    decreases |s.reg.chan|
  {
    acts := [];
    if s.reg.chan != [] {
      StepKeeps(s, Receiving(Drain));
      var rest := DrainsAll(Next(s, Receiving(Drain)));
      RunCons(s, Receiving(Drain), rest);
      acts := [Receiving(Drain)] + rest;
    }
  }

  /** The `n` youngest batches are empty. */
  ghost predicate YoungEmpty(r: State, n: nat) {
    forall k :: 0 <= k < n && k < |Batches(r)| ==> Batches(r)[k] == map[]
  }

  lemma TickEmpties(s: Conn, n: nat)
    requires Inv(s) && Running(s.receiver) && YoungEmpty(s.reg, n)
    ensures YoungEmpty(Next(s, Receiving(TimeReach)).reg, n + 1)
    ensures Next(s, Receiving(TimeReach)).reg.timeout == s.reg.timeout
  {
    AdjustedShift(s.reg);
  }

  /** Ticks until the batches that are left have all been emptied. */
  lemma {:induction false} TicksAll(s: Conn, n: nat) returns (acts: seq<Action>)
    requires Inv(s) && Running(s.receiver) && s.reg.chan == [] && YoungEmpty(s.reg, n)
    ensures CanRun(s, acts) && ReceiverOnly(acts)
    ensures var t := Run(s, acts); Inv(t) && t.reg.chan == [] && AllEmpty(Batches(t.reg))
    decreases s.reg.timeout + 1 - n
  {
    acts := [];
    if n <= s.reg.timeout {
      var a := Receiving(TimeReach);
      StepKeeps(s, a);
      TickEmpties(s, n);
      var rest := TicksAll(Next(s, a), n + 1);
      RunCons(s, a, rest);
      acts := [a] + rest;
    }
  }

  /** With nothing held the window is open. */
  lemma EmptyIsOpen(s: Conn)
    requires Inv(s) && s.sender.Throttling? && s.reg.chan == [] && AllEmpty(Batches(s.reg))
    ensures Enabled(s, Sending(Unthrottle))
  {
    SizeZero(Batches(s.reg));
  }

  lemma CleanEmpties(s: Conn)
    requires Inv(s) && s.receiver.Cleaning? && s.reg.chan == []
    ensures var t := Next(s, Exiting(Clean)); Inv(t) && t.reg.chan == [] && AllEmpty(Batches(t.reg))
  {
    StepKeeps(s, Exiting(Clean));
  }

  /** The clean-up of a leaving loop empties the registry. */
  lemma CleanUpEmpties(s: Conn) returns (acts: seq<Action>)
    requires Inv(s) && s.receiver.Cleaning?
    ensures CanRun(s, acts) && ReceiverOnly(acts)
    ensures var t := Run(s, acts); Inv(t) && t.reg.chan == [] && AllEmpty(Batches(t.reg))
  {
    var first := DrainsAll(s);
    var t := Run(s, first);
    CleanEmpties(t);
    RunCons(t, Exiting(Clean), []);
    RunAppend(s, first, [Exiting(Clean)] + []);
    acts := first + ([Exiting(Clean)] + []);
  }

  /** Whatever the receiver is doing, steps of its own empty the registry. */
  lemma ReceiverEmpties(s: Conn) returns (acts: seq<Action>)
    requires Inv(s)
    ensures CanRun(s, acts) && ReceiverOnly(acts)
    ensures var t := Run(s, acts); Inv(t) && t.reg.chan == [] && AllEmpty(Batches(t.reg))
  {
    if Running(s.receiver) {
      var first := DrainsAll(s);
      var rest := TicksAll(Run(s, first), 0);
      RunAppend(s, first, rest);
      acts := first + rest;
    } else if s.receiver.Cleaning? {
      acts := CleanUpEmpties(s);
    } else if s.receiver.Leaving? {
      acts := StepThenClean(s, Exiting(StoreClosed));
    } else if s.receiver.Counting? && s.reg.chan != [] {
      acts := StepThenClean(s, Exiting(LoadCount));
    } else {
      acts := [];
    }
  }

  lemma StepThenClean(s: Conn, a: Action) returns (acts: seq<Action>)
    requires Inv(s) && a.Exiting? && Enabled(s, a) && Next(s, a).receiver.Cleaning?
    ensures CanRun(s, acts) && ReceiverOnly(acts)
    ensures var t := Run(s, acts); Inv(t) && t.reg.chan == [] && AllEmpty(Batches(t.reg))
  {
    StepKeeps(s, a);
    var rest := CleanUpEmpties(Next(s, a));
    RunCons(s, a, rest);
    acts := [a] + rest;
  }

  /** No self-deadlock: from every reachable state in which the sender waits for the window, steps of
      the receiver alone open it. */
  lemma WindowReopens(s: Conn) returns (acts: seq<Action>)
    requires Reachable(s) && s.sender.Throttling?
    ensures CanRun(s, acts) && ReceiverOnly(acts) && Enabled(Run(s, acts), Sending(Unthrottle))
  {
    ReachableInv(s);
    acts := ReceiverEmpties(s);
    ReceiverKeepsSender(s, acts);
    EmptyIsOpen(Run(s, acts));
  }

  // ---------- The lookup of a response ----------

  /** The lookup finds what the registry holds for the number, if and only if the number was not
      still in the channel when registration was stopped. */
  lemma ResolveExact(s: Conn, q: nat)
    requires Inv(s) && s.receiver == Waiting(q) && Enabled(s, Receiving(Resolve))
    ensures Hand(Next(s, Receiving(Resolve)).receiver) == Lookup(s.reg, q)
            <==> !(s.reg.processed < q && s.reg.stopped && Lookup(s.reg, q).Some?)
  {
    if q <= s.reg.processed { FindChannelNone(s.reg.chan, q); }
  }

  // ---------- A response to a number nobody registered ----------

  /** The run drains a number that is at least `q`. */
  ghost predicate DrainsTo(s: Conn, acts: seq<Action>, q: nat)
    requires CanRun(s, acts)
    decreases |acts|
  {
    acts != [] &&
    ((acts[0] == Receiving(Drain) && q <= s.reg.chan[0].sn) || DrainsTo(Next(s, acts[0]), acts[1..], q))
  }

  /** The run stops registration. */
  ghost predicate Stops(s: Conn, acts: seq<Action>)
    requires CanRun(s, acts)
    decreases |acts|
  {
    acts != [] && ((acts[0] == FinishOp && s.sender.todo[0] == StopReg) || Stops(Next(s, acts[0]), acts[1..]))
  }

  predicate Released(s: Conn, q: nat) {
    q <= s.reg.processed || s.reg.stopped
  }

  lemma RecvRelease(s: Conn, b: RecvAct, q: nat)
    requires ChannelOk(s.reg.chan, s.reg.processed) && CanRecv(s, b)
    ensures Released(AfterRecv(s, b), q) <==> Released(s, q) || (b == Drain && q <= s.reg.chan[0].sn)
  {
  }

  lemma ReleaseStep(s: Conn, a: Action, q: nat)
    requires Inv(s) && Enabled(s, a)
    ensures Released(Next(s, a), q) <==> Released(s, q) || (a == Receiving(Drain) && q <= s.reg.chan[0].sn)
                                         || (a == FinishOp && s.sender.todo[0] == StopReg)
  {
    match a
    case Sending(b) =>
    case FinishOp =>
    case Side(b) =>
    case Receiving(b) => RecvRelease(s, b, q);
    case Exiting(b) =>
  }

  lemma WaitStep(s: Conn, a: Action, q: nat)
    requires Enabled(s, a) && s.receiver == Waiting(q) && !Released(s, q) && a != Exiting(SawError)
    ensures Next(s, a).receiver == Waiting(q)
  {
    match a
    case Sending(b) => SendRecords(s, b);
    case FinishOp => FinishRecords(s);
    case Side(b) =>
    case Receiving(b) =>
    case Exiting(b) =>
  }

  /** The response to a ping, or to any number that is not registered, holds the receiver up: it
      gets on exactly when a number at least as large is drained or registration is stopped. */
  lemma {:induction false} HeldUpExactly(s: Conn, acts: seq<Action>, q: nat)
    requires Inv(s) && CanRun(s, acts) && s.receiver == Waiting(q) && Exiting(SawError) !in acts
    ensures var t, free := Run(s, acts), Released(s, q) || DrainsTo(s, acts, q) || Stops(s, acts);
            && (!free ==> t.receiver == Waiting(q) && !Enabled(t, Receiving(Resolve)))
            && (free && t.receiver == Waiting(q) ==> Enabled(t, Receiving(Resolve)))
    decreases |acts|
  {
    RunReleased(s, acts, q);
    if acts != [] && !Released(s, q) {
      StepKeeps(s, acts[0]);
      ReleaseStep(s, acts[0], q);
      WaitStep(s, acts[0], q);
      HeldUpExactly(Next(s, acts[0]), acts[1..], q);
    }
  }

  lemma {:induction false} RunReleased(s: Conn, acts: seq<Action>, q: nat)
    requires Inv(s) && CanRun(s, acts)
    ensures Released(Run(s, acts), q) <==> Released(s, q) || DrainsTo(s, acts, q) || Stops(s, acts)
    decreases |acts|
  {
    if acts != [] {
      StepKeeps(s, acts[0]);
      ReleaseStep(s, acts[0], q);
      RunReleased(Next(s, acts[0]), acts[1..], q);
    }
  }

  // ---------- Timeouts over whole runs ----------

  /** No response to `q` arrives and the receive loop does not clean up. */
  predicate Silent(a: Action, q: nat) {
    a != Receiving(ReadHead(q)) && a != Exiting(Clean)
  }

  predicate AllSilent(acts: seq<Action>, q: nat) {
    forall i :: 0 <= i < |acts| ==> Silent(acts[i], q)
  }

  function TicksOf(acts: seq<Action>): nat {
    if acts == [] then 0 else One(acts[0] == Receiving(TimeReach)) + TicksOf(acts[1..])
  }

  /** Apart from registering, the sender touches only the counter and the stop flag. */
  predicate SameRecords(r: State, t: State) {
    t == r.(count := t.count, stopped := t.stopped)
  }

  lemma SendRecords(s: Conn, b: SendAct)
    requires CanSend(s, b)
    ensures if b.Send? then AfterSend(s, b).reg == Register(s.reg, Item(s.sender.sn, s.sender.id))
            else SameRecords(s.reg, AfterSend(s, b).reg)
    ensures AfterSend(s, b).receiver == s.receiver
  {
  }

  lemma FinishRecords(s: Conn)
    requires CanFinish(s)
    ensures SameRecords(s.reg, AfterFinish(s).reg) && AfterFinish(s).receiver == s.receiver
  {
  }

  /** What a step of the receiver does to the registry, if anything. */
  lemma RecvRecords(s: Conn, b: RecvAct, q: nat) returns (e: Option<Event>)
    requires Wf(s.reg) && CanRecv(s, b) && b != ReadHead(q) && s.receiver != Waiting(q)
    ensures e.Some? ==> Legal(s.reg, e.value) && e.value != Take(q) && AfterRecv(s, b).reg == Apply(s.reg, e.value)
    ensures e.None? ==> AfterRecv(s, b).reg == s.reg
    ensures e == Some(Tick) <==> b == TimeReach
    ensures AfterRecv(s, b).receiver != Waiting(q)
  {
    e := match b
         case TimeReach => Some(Tick)
         case Drain => Some(Pop)
         case Resolve => if AfterRecv(s, b).receiver.Holding? then Some(Take(s.receiver.sn)) else None
         case _ => None;
  }

  /** What a step does to the registry, if anything. */
  lemma RegistryStep(s: Conn, a: Action, q: nat) returns (e: Option<Event>)
    requires Inv(s) && Enabled(s, a) && Silent(a, q) && s.receiver != Waiting(q)
    ensures e.Some? ==> Legal(s.reg, e.value) && e.value != Take(q) && Next(s, a).reg == Apply(s.reg, e.value)
    ensures e.None? ==> SameRecords(s.reg, Next(s, a).reg)
    ensures e == Some(Tick) <==> a == Receiving(TimeReach)
    ensures Next(s, a).receiver != Waiting(q)
  {
    e := None;
    match a
    case Sending(b) =>
      SendRecords(s, b);
      if b.Send? { e := Some(Reg(Item(s.sender.sn, s.sender.id))); }
    case FinishOp => FinishRecords(s);
    case Side(b) =>
    case Receiving(b) => e := RecvRecords(s, b, q);
    case Exiting(b) =>
  }

  /** One tick older exactly if the step is a tick. */
  ghost predicate Aged(r: State, t: State, q: nat, k: nat) {
    && t.timeout == r.timeout
    && if k <= r.timeout then k < |Batches(t)| && q in Batches(t)[k] && t.timedOut[q] == r.timedOut[q]
       else t.timedOut[q] == r.timedOut[q] + 1
  }

  lemma SameRecordsAged(r: State, t: State, q: nat, k: nat)
    requires Wf(r) && SameRecords(r, t) && k < |Batches(r)| && q in Batches(r)[k]
    ensures Aged(r, t, q, k)
  {
    assert Batches(t) == Batches(r);
  }

  lemma AgeInStep(s: Conn, a: Action, q: nat, k: nat)
    requires Inv(s) && Enabled(s, a) && Silent(a, q) && s.receiver != Waiting(q)
    requires k < |Batches(s.reg)| && q in Batches(s.reg)[k]
    ensures Next(s, a).receiver != Waiting(q)
    ensures Aged(s.reg, Next(s, a).reg, q, k + One(a == Receiving(TimeReach)))
  {
    var e := RegistryStep(s, a, q);
    if e.Some? {
      AgeStep(s.reg, q, k, e.value);
      ApplyTimeout(s.reg, e.value);
    } else {
      SameRecordsAged(s.reg, Next(s, a).reg, q, k);
    }
  }

  lemma TimedOutGrows(s: Conn, a: Action, q: nat)
    requires Enabled(s, a)
    ensures Next(s, a).reg.timedOut[q] >= s.reg.timedOut[q]
  {
    match a
    case Sending(b) => SendRecords(s, b);
    case FinishOp => FinishRecords(s);
    case Side(b) =>
    case Receiving(b) =>
    case Exiting(b) =>
  }

  lemma {:induction false} TimedOutStays(s: Conn, acts: seq<Action>, q: nat)
    requires Inv(s) && CanRun(s, acts) && s.reg.timedOut[q] >= 1
    ensures Run(s, acts).reg.timedOut[q] == 1
    decreases |acts|
  {
    if acts == [] {
      assert NumberLedger(s.reg, s.log, Hand(s.receiver), q);
      DistinctKeys(s.log.history, 0, q);
    } else {
      StepKeeps(s, acts[0]);
      TimedOutGrows(s, acts[0], q);
      TimedOutStays(Next(s, acts[0]), acts[1..], q);
    }
  }

  lemma HeldNotTimedOut(s: Conn, q: nat, k: nat)
    requires Inv(s) && k < |Batches(s.reg)| && q in Batches(s.reg)[k]
    ensures s.reg.timedOut[q] == 0
  {
    assert NumberLedger(s.reg, s.log, Hand(s.receiver), q);
    DistinctKeys(s.log.history, 0, q);
    if Find(Batches(s.reg), q).None? { FindSome(Batches(s.reg), q, k); }
    HeldLookup(s.reg, q);
  }

  lemma {:induction false} FindSome(bs: seq<Batch>, q: nat, k: nat)
    requires k < |bs| && q in bs[k]
    ensures Find(bs, q).Some?
  {
    if q !in bs[0] { FindSome(bs[1..], q, k - 1); }
  }

  /** In every interleaving a drained task that gets no response is handed to error_handle with
      Timeout exactly once, at the tick that makes it older than the timeout: never sooner, never
      later, whatever the sender and other responses do. */
  lemma {:induction false} TimesOutExactly(s: Conn, acts: seq<Action>, q: nat, k: nat)
    requires Inv(s) && CanRun(s, acts) && AllSilent(acts, q) && s.receiver != Waiting(q)
    requires k < |Batches(s.reg)| && q in Batches(s.reg)[k]
    ensures Run(s, acts).reg.timedOut[q] == One(k + TicksOf(acts) > s.reg.timeout)
    decreases |acts|
  {
    HeldNotTimedOut(s, q, k);
    if acts == [] {
      assert k <= s.reg.timeout;
    } else {
      var a, rest := acts[0], acts[1..];
      var t, k' := Next(s, a), k + One(a == Receiving(TimeReach));
      assert Silent(a, q);
      StepKeeps(s, a);
      AgeInStep(s, a, q, k);
      if k' <= s.reg.timeout {
        TimesOutExactly(t, rest, q, k');
      } else {
        TimedOutStays(t, rest, q);
      }
    }
  }
}
