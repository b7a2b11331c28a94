/** One server's pool of workers: a monitor that promotes itself, public spawning, worker exit. */
module Pool {
  import opened Prelude

  /** Where a worker is: the phases of `run`, one per point at which others may move. */
  datatype Phase =
    | Allocated                // counted, not yet spawned
    | Connecting
    | Watching                 // the top of the monitor loop
    | Accompanied              // saw other workers: sleep, then ping
    | Alone                    // saw none: wait for a task or a second
    | Holding(task: nat)       // received a task
    | Swapping(task: nat)      // saw requests in flight and one worker
    | Owing(task: nat)         // swapped: worker 1 now, a new monitor is due
    | Sending(task: nat)
    | Cleaning
    | Working
    | Leaving                  // `run` returned, not yet uncounted

  datatype Worker = Worker(id: int, phase: Phase)

  datatype Place = InChannel | InHand(key: nat) | Sent | Failed

  /** `place`, `sent` and `failed` are the history of the tasks; `next` names workers apart. */
  datatype State = State(
    count: int, handles: nat, built: bool, disposed: bool, ok: bool,
    next: nat, workers: map<nat, Worker>,
    chan: seq<nat>, place: map<nat, Place>, sent: multiset<nat>, failed: multiset<nat>)

  function Init(): State {
    State(0, 1, false, false, true, 0, map[], [], map[], multiset{}, multiset{})
  }

  datatype Action =
    | Clone
    | Drop
    | Spawn
    | Submit(task: nat)
    | Dispose
    | Start(key: nat)
    | Connect(key: nat, up: bool)
    | Look(key: nat)
    | Ping(key: nat, up: bool)
    | Disconnected(key: nat)
    | Take(key: nat)
    | Judge(key: nat, inflight: bool)
    | Swap(key: nat)
    | SpawnMonitor(key: nat)
    | Send(key: nat, up: bool)
    | CleanOne(key: nat)
    | CleanEnd(key: nat)
    | Work(key: nat, up: bool)
    | Finish(key: nat, up: bool)
    | Exit(key: nat)

  predicate At(s: State, key: nat, phase: Phase) {
    key in s.workers && s.workers[key].phase == phase
  }

  predicate HasTask(p: Phase) {
    p.Holding? || p.Swapping? || p.Owing? || p.Sending?
  }

  /** A call of `spawn` borrows its handle until the worker has started. */
  predicate MayDrop(s: State) {
    s.built && s.handles > 0 && (s.handles > 1 || forall k :: k in s.workers ==> !s.workers[k].phase.Allocated?)
  }

  predicate HandleEnabled(s: State, a: Action) {
    match a
    case Clone => s.built && s.handles > 0
    case Drop => MayDrop(s)
    case Spawn => s.handles > 0
    case Submit(task) => s.built && s.handles > 0 && task !in s.place
    case Dispose => s.built && s.handles == 0 && s.workers == map[] && !s.disposed
    case _ => false
  }

  predicate WorkerEnabled(s: State, a: Action) {
    match a
    case Start(k) => At(s, k, Allocated)
    case Connect(k, _) => At(s, k, Connecting)
    case Look(k) => At(s, k, Watching)
    case Ping(k, _) => At(s, k, Accompanied) || At(s, k, Alone)
    case Disconnected(k) => At(s, k, Alone) && s.handles == 0 && s.chan == []
    case Take(k) => At(s, k, Alone) && s.chan != []
    case Judge(k, _) => k in s.workers && s.workers[k].phase.Holding?
    case Swap(k) => k in s.workers && s.workers[k].phase.Swapping?
    case SpawnMonitor(k) => k in s.workers && s.workers[k].phase.Owing?
    case Send(k, _) => k in s.workers && s.workers[k].phase.Sending?
    case CleanOne(k) => At(s, k, Cleaning) && s.chan != []
    case CleanEnd(k) => At(s, k, Cleaning) && s.chan == []
    case Work(k, _) => At(s, k, Working) && s.chan != []
    case Finish(k, up) => At(s, k, Working) && (up ==> s.handles == 0 && s.chan == [])
    case Exit(k) => At(s, k, Leaving)
    case _ => false
  }

  predicate Enabled(s: State, a: Action) {
    HandleEnabled(s, a) || WorkerEnabled(s, a)
  }

  function Move(s: State, k: nat, phase: Phase): State
    requires k in s.workers
  {
    s.(workers := s.workers[k := s.workers[k].(phase := phase)])
  }

  function Join(s: State, w: Worker): State {
    s.(next := s.next + 1, workers := s.workers[s.next := w])
  }

  /** Take the head of the channel and put it somewhere. */
  function Put(s: State, p: Place): State
    requires s.chan != []
  {
    var t := s.chan[0];
    s.(chan := s.chan[1..], place := s.place[t := p],
       sent := if p.Sent? then s.sent + multiset{t} else s.sent,
       failed := if p.Failed? then s.failed + multiset{t} else s.failed)
  }

  /** `cleanup` of the dropped pool. */
  function {:tailrecursion false} CleanAll(s: State): State
    decreases |s.chan|
  {
    if s.chan == [] then s else CleanAll(Put(s, Failed))
  }

  function HandleNext(s: State, a: Action): State
    requires HandleEnabled(s, a)
  {
    match a
    case Clone => s.(handles := s.handles + 1)
    case Drop => s.(handles := s.handles - 1)
    case Spawn => Join(s.(count := s.count + 1, built := true), Worker(s.count, Allocated))
    case Submit(task) => s.(chan := s.chan + [task], place := s.place[task := InChannel])
    case Dispose => CleanAll(s).(disposed := true)
  }

  function WorkerNext(s: State, a: Action): State
    requires WorkerEnabled(s, a)
  {
    var w := s.workers[a.key];
    match a
    case Start(k) => Move(s, k, Connecting)
    case Connect(k, up) =>
      if !up then Move(s.(ok := false), k, Cleaning)
      else Move(s, k, if w.id == 0 then Watching else Working)
    case Look(k) => Move(s, k, if s.count > 1 then Accompanied else Alone)
    case Ping(k, up) =>
      if up then Move(s, k, Watching)
      else Move(s.(ok := false), k, if w.phase == Alone then Cleaning else Connecting)
    case Disconnected(k) => Move(s, k, Leaving)
    case Take(k) => Move(Put(s, InHand(k)), k, Holding(s.chan[0]))
    case Judge(k, inflight) =>
      Move(s, k, if inflight && s.count == 1 then Swapping(w.phase.task) else Sending(w.phase.task))
    case Swap(k) =>
      if s.count == 1 then s.(count := 2, workers := s.workers[k := Worker(1, Owing(w.phase.task))])
      else Move(s, k, Sending(w.phase.task))
    case SpawnMonitor(k) => Join(Move(s, k, Sending(w.phase.task)), Worker(0, Connecting))
    case Send(k, up) =>
      var t := w.phase.task;
      var n := s.(place := s.place[t := Sent], sent := s.sent + multiset{t});
      if up then Move(n, k, if w.id == 0 then Watching else Working)
      else Move(n.(ok := false), k, if w.id == 0 then Cleaning else Leaving)
    case CleanOne(k) => Put(s, Failed)
    case CleanEnd(k) => Move(s, k, Connecting)
    case Work(k, up) =>
      if up then Put(s, Sent) else Move(Put(s, Sent).(ok := false), k, Leaving)
    case Finish(k, up) => Move(if up then s else s.(ok := false), k, Leaving)
    case Exit(k) => s.(count := s.count - 1, workers := s.workers - {k})
  }

  function Next(s: State, a: Action): State
    requires Enabled(s, a)
  {
    if HandleEnabled(s, a) then HandleNext(s, a) else WorkerNext(s, a)
  }

  ghost predicate Path(s: State, acts: seq<Action>, t: State)
    decreases |acts|
  {
    if acts == [] then s == t else Enabled(s, acts[0]) && Path(Next(s, acts[0]), acts[1..], t)
  }

  ghost predicate Reachable(s: State) {
    exists acts :: Path(Init(), acts, s)
  }

  // ---------- One monitor ----------

  /** A worker that is the monitor, or owes the next one. */
  predicate Seat(w: Worker) {
    w.id == 0 || w.phase.Owing?
  }

  predicate PhaseFits(s: State, w: Worker) {
    && w.id >= 0
    && match w.phase
       case Allocated => true
       case Connecting => true
       case Cleaning => true
       case Owing(_) => w.id == 1
       case Sending(_) => true
       case Working => w.id > 0
       case Leaving => w.id == 0 ==> s.handles == 0
       case _ => w.id == 0
  }

  /** Monitors still to be spawned. */
  function Due(s: State, m: Option<nat>): nat {
    if m.Some? && m.value in s.workers && s.workers[m.value].phase.Owing? then 1 else 0
  }

  /** `m` is the one worker that is or owes the monitor. */
  ghost predicate Staffed(s: State, m: Option<nat>) {
    && s.count == |s.workers| + Due(s, m)
    && (forall k :: k in s.workers ==>
        k < s.next && PhaseFits(s, s.workers[k]) && (Seat(s.workers[k]) <==> m == Some(k)))
    && (m.Some? ==> m.value in s.workers)
    && (s.built && s.handles > 0 ==> m.Some?)
    && (!s.built ==> s.workers == map[])
  }

  /** What `Staffed` looks at apart from the workers. */
  predicate SameOffice(s: State, n: State) {
    n.count == s.count && n.handles == s.handles && n.built == s.built && n.next == s.next
  }

  /** A worker changes phase and neither becomes nor stops being the monitor. */
  lemma ReplaceKeeps(s: State, n: State, m: Option<nat>, k: nat, w: Worker)
    requires Staffed(s, m) && k in s.workers && SameOffice(s, n) && n.workers == s.workers[k := w]
    requires PhaseFits(n, w) && w.id == s.workers[k].id && !w.phase.Owing? && !s.workers[k].phase.Owing?
    ensures Staffed(n, m)
  {
    assert n.workers.Keys == s.workers.Keys;
  }

  lemma SwapKeeps(s: State, m: Option<nat>, k: nat)
    requires Staffed(s, m) && WorkerEnabled(s, Swap(k))
    ensures Staffed(WorkerNext(s, Swap(k)), m)
  {
    var n := WorkerNext(s, Swap(k));
    if s.count == 1 {
      assert n.workers.Keys == s.workers.Keys;
    } else {
      ReplaceKeeps(s, n, m, k, n.workers[k]);
    }
  }

  lemma SpawnMonitorKeeps(s: State, m: Option<nat>, k: nat)
    requires Staffed(s, m) && WorkerEnabled(s, SpawnMonitor(k))
    ensures Staffed(WorkerNext(s, SpawnMonitor(k)), Some(s.next))
  {
    var n, w := WorkerNext(s, SpawnMonitor(k)), s.workers[k];
    assert m == Some(k) && PhaseFits(s, w) && w.id == 1;
    assert n.workers == s.workers[k := Worker(1, Sending(w.phase.task))][s.next := Worker(0, Connecting)];
    assert n.workers.Keys == s.workers.Keys + {s.next};
  }

  lemma SpawnKeeps(s: State, m: Option<nat>)
    requires Staffed(s, m) && HandleEnabled(s, Spawn)
    ensures Staffed(HandleNext(s, Spawn), if s.built then m else Some(s.next))
    ensures s.count >= if s.built then 1 else 0
  {
    var n := HandleNext(s, Spawn);
    assert n.workers.Keys == s.workers.Keys + {s.next};
    if s.built { assert |s.workers.Keys| >= 1 by { assert m.value in s.workers.Keys; } }
  }

  lemma ExitKeeps(s: State, m: Option<nat>, k: nat)
    requires Staffed(s, m) && WorkerEnabled(s, Exit(k))
    ensures Staffed(WorkerNext(s, Exit(k)), if m == Some(k) then None else m)
  {
    var n := WorkerNext(s, Exit(k));
    assert n.workers.Keys == s.workers.Keys - {k};
    assert |s.workers.Keys| == |n.workers.Keys| + 1;
  }

  lemma {:induction false} CleanAllStaff(s: State)
    ensures SameOffice(s, CleanAll(s)) && CleanAll(s).workers == s.workers
    decreases |s.chan|
  {
    if s.chan != [] { CleanAllStaff(Put(s, Failed)); }
  }

  lemma StepStaffed(s: State, a: Action, m: Option<nat>) returns (m': Option<nat>)
    requires Staffed(s, m) && Enabled(s, a)
    ensures Staffed(Next(s, a), m')
  {
    m' := m;
    if a.Spawn? {
      SpawnKeeps(s, m);
      m' := if s.built then m else Some(s.next);
    } else if a.Dispose? {
      CleanAllStaff(s);
    } else if a.Swap? {
      SwapKeeps(s, m, a.key);
    } else if a.SpawnMonitor? {
      SpawnMonitorKeeps(s, m, a.key);
      m' := Some(s.next);
    } else if a.Exit? {
      ExitKeeps(s, m, a.key);
      m' := if m == Some(a.key) then None else m;
    } else if WorkerEnabled(s, a) {
      PhaseStaffed(s, a, m);
    }
  }

  /** Steps of a worker that holds no task and takes none. */
  predicate IdleStep(a: Action) {
    a.Start? || a.Connect? || a.Look? || a.Ping? || a.Disconnected? || a.CleanEnd? || a.Finish?
  }

  lemma IdleMove(s: State, a: Action) returns (p: Phase)
    requires IdleStep(a) && WorkerEnabled(s, a) && PhaseFits(s, s.workers[a.key])
    ensures !HasTask(s.workers[a.key].phase) && !HasTask(p) && PhaseFits(s, s.workers[a.key].(phase := p))
    ensures WorkerNext(s, a) == Move(s.(ok := WorkerNext(s, a).ok), a.key, p)
  {
    p := WorkerNext(s, a).workers[a.key].phase;
  }

  lemma IdleStaffed(s: State, a: Action, m: Option<nat>)
    requires Staffed(s, m) && WorkerEnabled(s, a) && IdleStep(a)
    ensures Staffed(WorkerNext(s, a), m)
  {
    var w := s.workers[a.key];
    assert PhaseFits(s, w);
    var p := IdleMove(s, a);
    ReplaceKeeps(s, WorkerNext(s, a), m, a.key, w.(phase := p));
  }

  lemma TaskStaffed(s: State, a: Action, m: Option<nat>)
    requires Staffed(s, m) && WorkerEnabled(s, a) && (a.Take? || a.Judge? || a.Send?)
    ensures Staffed(WorkerNext(s, a), m)
  {
    assert PhaseFits(s, s.workers[a.key]);
    ReplaceKeeps(s, WorkerNext(s, a), m, a.key, WorkerNext(s, a).workers[a.key]);
  }

  lemma ChannelStaffed(s: State, a: Action, m: Option<nat>)
    requires Staffed(s, m) && WorkerEnabled(s, a) && (a.CleanOne? || a.Work?)
    ensures Staffed(WorkerNext(s, a), m)
  {
    var w := s.workers[a.key];
    assert PhaseFits(s, w);
    assert s.workers == s.workers[a.key := w];
    ReplaceKeeps(s, WorkerNext(s, a), m, a.key, WorkerNext(s, a).workers[a.key]);
  }

  lemma PhaseStaffed(s: State, a: Action, m: Option<nat>)
    requires Staffed(s, m) && WorkerEnabled(s, a) && !a.Swap? && !a.SpawnMonitor? && !a.Exit?
    ensures Staffed(WorkerNext(s, a), m)
  {
    if IdleStep(a) {
      IdleStaffed(s, a, m);
    } else if a.CleanOne? || a.Work? {
      ChannelStaffed(s, a, m);
    } else {
      TaskStaffed(s, a, m);
    }
  }

  lemma {:induction false} PathStaffed(s: State, acts: seq<Action>, t: State, m: Option<nat>) returns (m': Option<nat>)
    requires Staffed(s, m) && Path(s, acts, t)
    ensures Staffed(t, m')
    decreases |acts|
  {
    m' := m;
    if acts != [] {
      m' := StepStaffed(s, acts[0], m);
      m' := PathStaffed(Next(s, acts[0]), acts[1..], t, m');
    }
  }

  ghost function Monitors(s: State): set<nat> {
    set k | k in s.workers && Seat(s.workers[k])
  }

  ghost function Owed(s: State): set<nat> {
    set k | k in s.workers && s.workers[k].phase.Owing?
  }

  /** In every interleaving `worker_count` is the number of workers started, about to start or not
      yet uncounted, and while a handle exists exactly one of them is or owes the monitor. */
  lemma OneMonitor(s: State)
    requires Reachable(s)
    ensures s.count == |s.workers| + |Owed(s)|
    ensures |Monitors(s)| <= 1
    ensures s.built && s.handles > 0 ==> |Monitors(s)| == 1
  {
    var acts :| Path(Init(), acts, s);
    var m := PathStaffed(Init(), acts, s, None);
    assert Monitors(s) == if m.Some? then {m.value} else {};
    assert Owed(s) == if Due(s, m) == 1 then {m.value} else {};
  }

  /** After the first, no call of `spawn` makes a second monitor. */
  lemma SpawnedAreWorkers(s: State)
    requires Reachable(s) && HandleEnabled(s, Spawn)
    ensures HandleNext(s, Spawn).workers[s.next].id == 0 <==> !s.built
  {
    var acts :| Path(Init(), acts, s);
    var m := PathStaffed(Init(), acts, s, None);
    SpawnKeeps(s, m);
  }

  // ---------- Every task is accounted for ----------

  ghost predicate TaskOk(s: State, t: nat) {
    var n, f := s.sent[t], s.failed[t];
    if t !in s.place then n == 0 && f == 0 else
    match s.place[t]
    case InChannel => n == 0 && f == 0 && t in s.chan
    case InHand(k) => n == 0 && f == 0 && k in s.workers && HasTask(s.workers[k].phase) && s.workers[k].phase.task == t
    case Sent => n == 1 && f == 0
    case Failed => n == 0 && f == 1
  }

  ghost predicate Ledger(s: State) {
    && (forall t: nat :: TaskOk(s, t))
    && (forall i :: 0 <= i < |s.chan| ==> s.chan[i] in s.place && s.place[s.chan[i]] == InChannel)
    && (forall i, j :: 0 <= i < j < |s.chan| ==> s.chan[i] != s.chan[j])
    && (forall k :: k in s.workers && HasTask(s.workers[k].phase)
          ==> s.workers[k].phase.task in s.place && s.place[s.workers[k].phase.task] == InHand(k))
    && (forall k :: k in s.workers ==> k < s.next)
  }

  lemma PutKeeps(s: State, p: Place)
    requires Ledger(s) && s.chan != [] && (p.Sent? || p.Failed?)
    ensures Ledger(Put(s, p))
  {
    var n := Put(s, p);
    assert s.place[s.chan[0]] == InChannel;
    forall t: nat ensures TaskOk(n, t) {
      assert TaskOk(s, t) && TaskOk(s, s.chan[0]);
      if t in s.chan && t != s.chan[0] { assert t in n.chan; }
    }
  }

  /** A worker moves on with or without the task in its hand. */
  lemma MoveKeeps(s: State, n: State, k: nat)
    requires Ledger(s) && k in s.workers && k in n.workers
             && n == s.(count := n.count, ok := n.ok, workers := n.workers)
    requires n.workers == s.workers[k := n.workers[k]]
    requires var p, q := s.workers[k].phase, n.workers[k].phase;
             HasTask(p) == HasTask(q) && (HasTask(p) ==> p.task == q.task)
    ensures Ledger(n)
  {
    forall t: nat ensures TaskOk(n, t) { assert TaskOk(s, t); }
  }

  lemma TakeKeeps(s: State, k: nat)
    requires Ledger(s) && WorkerEnabled(s, Take(k))
    ensures Ledger(WorkerNext(s, Take(k)))
  {
    var n := WorkerNext(s, Take(k));
    assert s.place[s.chan[0]] == InChannel;
    forall t: nat ensures TaskOk(n, t) {
      assert TaskOk(s, t) && TaskOk(s, s.chan[0]);
      if t in s.chan && t != s.chan[0] { assert t in n.chan; }
    }
  }

  lemma SendKeeps(s: State, k: nat, up: bool)
    requires Ledger(s) && WorkerEnabled(s, Send(k, up))
    ensures Ledger(WorkerNext(s, Send(k, up)))
  {
    var n := WorkerNext(s, Send(k, up));
    var u := s.workers[k].phase.task;
    assert s.place[u] == InHand(k);
    forall t: nat ensures TaskOk(n, t) { assert TaskOk(s, t) && TaskOk(s, u); }
  }

  lemma JoinKeeps(s: State, n: State, w: Worker)
    requires Ledger(s) && !HasTask(w.phase)
    requires n == Join(s.(count := n.count, built := n.built), w)
    ensures Ledger(n)
  {
    forall t: nat ensures TaskOk(n, t) { assert TaskOk(s, t); }
  }

  lemma ExitLedger(s: State, k: nat)
    requires Ledger(s) && WorkerEnabled(s, Exit(k))
    ensures Ledger(WorkerNext(s, Exit(k)))
  {
    forall t: nat ensures TaskOk(WorkerNext(s, Exit(k)), t) { assert TaskOk(s, t); }
  }

  lemma SwapLedger(s: State, a: Action)
    requires Ledger(s) && WorkerEnabled(s, a) && (a.Judge? || a.Swap?)
    ensures Ledger(WorkerNext(s, a))
  {
    MoveKeeps(s, WorkerNext(s, a), a.key);
  }

  lemma SpawnMonitorLedger(s: State, k: nat)
    requires Ledger(s) && WorkerEnabled(s, SpawnMonitor(k))
    ensures Ledger(WorkerNext(s, SpawnMonitor(k)))
  {
    var m := Move(s, k, Sending(s.workers[k].phase.task));
    MoveKeeps(s, m, k);
    JoinKeeps(m, WorkerNext(s, SpawnMonitor(k)), Worker(0, Connecting));
  }

  lemma WorkLedger(s: State, k: nat, up: bool)
    requires Ledger(s) && WorkerEnabled(s, Work(k, up))
    ensures Ledger(WorkerNext(s, Work(k, up)))
  {
    PutKeeps(s, Sent);
    if !up { MoveKeeps(Put(s, Sent), WorkerNext(s, Work(k, up)), k); }
  }

  lemma WorkerLedger(s: State, a: Action)
    requires Ledger(s) && WorkerEnabled(s, a) && PhaseFits(s, s.workers[a.key])
    ensures Ledger(WorkerNext(s, a))
  {
    if a.Take? {
      TakeKeeps(s, a.key);
    } else if a.Send? {
      SendKeeps(s, a.key, a.up);
    } else if a.CleanOne? {
      PutKeeps(s, Failed);
    } else if a.Work? {
      WorkLedger(s, a.key, a.up);
    } else if a.SpawnMonitor? {
      SpawnMonitorLedger(s, a.key);
    } else if a.Exit? {
      ExitLedger(s, a.key);
    } else if IdleStep(a) {
      var p := IdleMove(s, a);
      MoveKeeps(s, WorkerNext(s, a), a.key);
    } else {
      SwapLedger(s, a);
    }
  }

  lemma {:induction false} CleanAllKeeps(s: State)
    requires Ledger(s)
    ensures Ledger(CleanAll(s)) && CleanAll(s).chan == [] && CleanAll(s).place.Keys == s.place.Keys
    decreases |s.chan|
  {
    if s.chan != [] {
      PutKeeps(s, Failed);
      assert Put(s, Failed).place.Keys == s.place.Keys;
      CleanAllKeeps(Put(s, Failed));
    }
  }

  lemma HandleLedger(s: State, a: Action)
    requires Ledger(s) && HandleEnabled(s, a)
    ensures Ledger(HandleNext(s, a))
  {
    var n := HandleNext(s, a);
    if a.Spawn? {
      JoinKeeps(s, n, Worker(s.count, Allocated));
    } else if a.Dispose? {
      CleanAllKeeps(s);
      forall t: nat ensures TaskOk(n, t) { assert TaskOk(CleanAll(s), t); }
    } else {
      forall t: nat ensures TaskOk(n, t) { assert TaskOk(s, t); }
    }
  }

  /** A disposed pool is empty and stays as it is. */
  predicate Closed(s: State) {
    s.disposed ==> s.handles == 0 && s.workers == map[] && s.chan == []
  }

  lemma StepLedger(s: State, a: Action, m: Option<nat>)
    requires Ledger(s) && Closed(s) && Staffed(s, m) && Enabled(s, a)
    ensures Ledger(Next(s, a)) && Closed(Next(s, a))
  {
    if HandleEnabled(s, a) {
      HandleLedger(s, a);
      if a.Dispose? { CleanAllKeeps(s); CleanAllStaff(s); }
    } else {
      assert PhaseFits(s, s.workers[a.key]);
      WorkerLedger(s, a);
      assert !s.disposed && !Next(s, a).disposed;
    }
  }

  lemma {:induction false} PathLedger(s: State, acts: seq<Action>, t: State, m: Option<nat>)
    requires Ledger(s) && Closed(s) && Staffed(s, m) && Path(s, acts, t)
    ensures Ledger(t) && Closed(t)
    decreases |acts|
  {
    if acts != [] {
      StepLedger(s, acts[0], m);
      var m' := StepStaffed(s, acts[0], m);
      PathLedger(Next(s, acts[0]), acts[1..], t, m');
    }
  }

  /** No task is lost or handled twice: a submitted task has gone to a stream or been failed at
      most once, and by the time the pool is gone exactly once. */
  lemma EveryTaskOnce(s: State, t: nat)
    requires Reachable(s) && t in s.place
    ensures s.sent[t] + s.failed[t] <= 1
    ensures s.sent[t] + s.failed[t] == 0 <==>
            t in s.chan || exists k :: k in s.workers && HasTask(s.workers[k].phase) && s.workers[k].phase.task == t
    ensures s.disposed ==> s.sent[t] + s.failed[t] == 1
  {
    var acts :| Path(Init(), acts, s);
    PathLedger(Init(), acts, s, None);
    assert TaskOk(s, t);
  }

  lemma {:induction false} CleanAllHealth(s: State)
    ensures CleanAll(s).ok == s.ok
    decreases |s.chan|
  {
    if s.chan != [] { CleanAllHealth(Put(s, Failed)); }
  }

  /** A connect, ping, send or flush that fails. */
  predicate Failing(a: Action) {
    (a.Connect? || a.Ping? || a.Send? || a.Work? || a.Finish?) && !a.up
  }

  lemma HandleHealth(s: State, a: Action)
    requires HandleEnabled(s, a)
    ensures HandleNext(s, a).ok == s.ok && !Failing(a)
  {
    if a.Dispose? { CleanAllHealth(s); }
  }

  lemma WorkerHealth(s: State, a: Action)
    requires WorkerEnabled(s, a)
    ensures WorkerNext(s, a).ok == (s.ok && !Failing(a))
  {
  }

  lemma HealthStep(s: State, a: Action)
    requires Enabled(s, a)
    ensures Next(s, a).ok <==> s.ok && !Failing(a)
  {
    if HandleEnabled(s, a) {
      HandleHealth(s, a);
    } else {
      WorkerHealth(s, a);
    }
  }

  /** Health is only ever lost: no step turns `is_ok` back on. */
  lemma {:induction false} NeverHealthyAgain(s: State, acts: seq<Action>, t: State)
    requires Path(s, acts, t) && !s.ok
    ensures !t.ok
    decreases |acts|
  {
    if acts != [] {
      HealthStep(s, acts[0]);
      NeverHealthyAgain(Next(s, acts[0]), acts[1..], t);
    }
  }

  /** One failed connection is enough. */
  lemma FailedConnectEndsHealth() returns (s: State)
    ensures Reachable(s) && s.handles == 1 && !s.ok
  {
    var s0 := Init();
    var s1 := Next(s0, Spawn);
    var s2 := Next(s1, Start(0));
    s := Next(s2, Connect(0, false));
    assert Path(s2, [Connect(0, false)], s) by { assert [Connect(0, false)][1..] == []; }
    var rest := [Start(0), Connect(0, false)];
    assert Path(s1, rest, s) by { assert rest[1..] == [Connect(0, false)]; }
    var acts := [Spawn] + rest;
    assert acts[1..] == rest;
    assert Path(s0, acts, s);
  }

  // ---------- Who is sent and who is failed ----------

  lemma HeadAndRest(c: seq<nat>)
    requires c != []
    ensures multiset(c) == multiset{c[0]} + multiset(c[1..])
  {
    assert c == [c[0]] + c[1..];
  }

  lemma {:induction false} CleanAllFails(s: State)
    ensures CleanAll(s).failed == s.failed + multiset(s.chan) && CleanAll(s).sent == s.sent
    decreases |s.chan|
  {
    if s.chan != [] {
      var n := Put(s, Failed);
      assert n.failed == s.failed + multiset{s.chan[0]} && n.sent == s.sent && n.chan == s.chan[1..];
      CleanAllFails(n);
      HeadAndRest(s.chan);
    }
  }

  lemma SendsAndFails(s: State, a: Action)
    requires HandleEnabled(s, a)
    ensures HandleNext(s, a).sent == s.sent
    ensures HandleNext(s, a).failed == if a.Dispose? then s.failed + multiset(s.chan) else s.failed
  {
    if a.Dispose? { CleanAllFails(s); }
  }

  lemma PassesOn(s: State, a: Action)
    requires WorkerEnabled(s, a) && !a.Work? && !a.Send? && !a.CleanOne?
    ensures WorkerNext(s, a).sent == s.sent && WorkerNext(s, a).failed == s.failed
  {
  }

  lemma HandsOver(s: State, a: Action)
    requires WorkerEnabled(s, a) && (a.Work? || a.Send? || a.CleanOne?)
    ensures WorkerNext(s, a).sent == s.sent + (if a.Work? then multiset{s.chan[0]}
                                               else if a.Send? then multiset{s.workers[a.key].phase.task}
                                               else multiset{})
    ensures WorkerNext(s, a).failed == s.failed + if a.CleanOne? then multiset{s.chan[0]} else multiset{}
  {
  }

  /** A connected worker sends the head of the channel and the monitor the task in its hand; only
      cleaning up, by a worker that failed or at the end of the pool, fails a task. */
  lemma SentOrFailed(s: State, a: Action)
    requires Enabled(s, a)
    ensures Next(s, a).sent == s.sent + (if a.Work? then multiset{s.chan[0]}
                                         else if a.Send? then multiset{s.workers[a.key].phase.task} else multiset{})
    ensures Next(s, a).failed == s.failed + (if a.CleanOne? then multiset{s.chan[0]}
                                             else if a.Dispose? then multiset(s.chan) else multiset{})
  {
    if HandleEnabled(s, a) {
      SendsAndFails(s, a);
    } else if a.Work? || a.Send? || a.CleanOne? {
      HandsOver(s, a);
    } else {
      PassesOn(s, a);
    }
  }

  predicate Trouble(acts: seq<Action>) {
    exists i :: 0 <= i < |acts| && Failing(acts[i])
  }

  lemma TroubleCons(acts: seq<Action>)
    requires acts != []
    ensures Trouble(acts) <==> Failing(acts[0]) || Trouble(acts[1..])
  {
    if Trouble(acts) && !Failing(acts[0]) {
      var i :| 0 <= i < |acts| && Failing(acts[i]);
      assert acts[1..][i - 1] == acts[i];
    }
    if Trouble(acts[1..]) {
      var i :| 0 <= i < |acts[1..]| && Failing(acts[1..][i]);
      assert acts[i + 1] == acts[1..][i];
    }
  }

  /** A pool is healthy exactly as long as nothing has failed. */
  lemma {:induction false} HealthyUntilTrouble(s: State, acts: seq<Action>, t: State)
    requires Path(s, acts, t)
    ensures t.ok <==> s.ok && !Trouble(acts)
    decreases |acts|
  {
    if acts != [] {
      TroubleCons(acts);
      HealthStep(s, acts[0]);
      HealthyUntilTrouble(Next(s, acts[0]), acts[1..], t);
    }
  }

  /** Nothing has been failed, nobody cleans up, and workers leave only an empty, abandoned pool. */
  ghost predicate Smooth(s: State) {
    && s.failed == multiset{}
    && (forall k :: k in s.workers ==> !s.workers[k].phase.Cleaning?)
    && (forall k :: k in s.workers && s.workers[k].phase.Leaving? ==> s.handles == 0 && s.chan == [])
    && (s.built && s.workers == map[] ==> s.handles == 0 && s.chan == [])
  }

  lemma SmoothHandle(s: State, a: Action)
    requires Smooth(s) && HandleEnabled(s, a)
    ensures Smooth(HandleNext(s, a))
  {
    if a.Spawn? { assert HandleNext(s, a).workers[s.next] == Worker(s.count, Allocated); }
  }

  lemma SmoothIdle(s: State, a: Action)
    requires Smooth(s) && WorkerEnabled(s, a) && IdleStep(a) && !Failing(a)
    ensures Smooth(WorkerNext(s, a))
  {
    var n := WorkerNext(s, a);
    assert a.key in n.workers;
    assert forall k :: k in n.workers && k != a.key ==> n.workers[k] == s.workers[k];
  }

  /** A worker moves to a phase that neither cleans up nor leaves. */
  lemma SmoothMove(s: State, n: State, k: nat, w: Worker)
    requires Smooth(s) && k in s.workers && n.workers == s.workers[k := w]
    requires !w.phase.Cleaning? && !w.phase.Leaving? && n.failed == s.failed
    requires n.handles == s.handles && n.built == s.built && |n.chan| <= |s.chan|
    ensures Smooth(n)
  {
    assert k in n.workers;
  }

  lemma SmoothTask(s: State, a: Action)
    requires Smooth(s) && WorkerEnabled(s, a) && (a.Take? || a.Judge? || a.Swap? || a.Send?) && !Failing(a)
    ensures Smooth(WorkerNext(s, a))
  {
    SmoothMove(s, WorkerNext(s, a), a.key, WorkerNext(s, a).workers[a.key]);
  }

  lemma SmoothWork(s: State, a: Action)
    requires Smooth(s) && WorkerEnabled(s, a) && a.Work? && !Failing(a)
    ensures Smooth(WorkerNext(s, a))
  {
    assert s.workers == s.workers[a.key := s.workers[a.key]];
    SmoothMove(s, WorkerNext(s, a), a.key, s.workers[a.key]);
  }

  lemma SmoothSpawn(s: State, k: nat)
    requires Smooth(s) && WorkerEnabled(s, SpawnMonitor(k)) && s.next !in s.workers
    ensures Smooth(WorkerNext(s, SpawnMonitor(k)))
  {
    var m := Move(s, k, Sending(s.workers[k].phase.task));
    SmoothMove(s, m, k, m.workers[k]);
    var n := WorkerNext(s, SpawnMonitor(k));
    assert n.workers == m.workers[s.next := Worker(0, Connecting)];
    assert s.next in n.workers;
  }

  lemma SmoothExit(s: State, k: nat)
    requires Smooth(s) && WorkerEnabled(s, Exit(k))
    ensures Smooth(WorkerNext(s, Exit(k)))
  {
  }

  lemma SmoothBusy(s: State, a: Action)
    requires Smooth(s) && WorkerEnabled(s, a) && !IdleStep(a) && !Failing(a)
    requires s.next !in s.workers
    ensures Smooth(WorkerNext(s, a))
  {
    if a.Work? {
      SmoothWork(s, a);
    } else if a.SpawnMonitor? {
      SmoothSpawn(s, a.key);
    } else if a.Exit? {
      SmoothExit(s, a.key);
    } else {
      SmoothTask(s, a);
    }
  }

  lemma {:induction false} SmoothRun(s: State, acts: seq<Action>, t: State, m: Option<nat>)
    requires Smooth(s) && Staffed(s, m) && Path(s, acts, t) && !Trouble(acts)
    ensures Smooth(t)
    decreases |acts|
  {
    if acts != [] {
      var a := acts[0];
      TroubleCons(acts);
      if HandleEnabled(s, a) {
        SmoothHandle(s, a);
      } else {
        assert PhaseFits(s, s.workers[a.key]);
        if IdleStep(a) {
          SmoothIdle(s, a);
        } else {
          SmoothBusy(s, a);
        }
      }
      var m' := StepStaffed(s, a, m);
      SmoothRun(Next(s, a), acts[1..], t, m');
    }
  }

  /** Over every run in which no connect, ping, send or flush fails, no task is failed, not even at the
      end of the pool, and no worker leaves while a handle exists or a task waits. */
  lemma NothingFailsWithoutTrouble(acts: seq<Action>, t: State)
    requires Path(Init(), acts, t) && !Trouble(acts)
    ensures t.ok && t.failed == multiset{}
    ensures forall k :: k in t.workers && t.workers[k].phase.Leaving? ==> t.handles == 0 && t.chan == []
  {
    HealthyUntilTrouble(Init(), acts, t);
    SmoothRun(Init(), acts, t, None);
  }

  // ---------- What a worker goes through ----------

  lemma PathCons(s: State, a: Action, rest: seq<Action>, t: State)
    requires Enabled(s, a) && Path(Next(s, a), rest, t)
    ensures Path(s, [a] + rest, t)
  {
    assert ([a] + rest)[1..] == rest;
  }

  lemma PathOne(s: State, a: Action, t: State)
    requires Enabled(s, a) && t == Next(s, a)
    ensures Path(s, [a], t)
  {
    PathCons(s, a, [], t);
    assert [a] + [] == [a];
  }

  lemma Path2(s: State, a: Action, n: State, b: Action, t: State)
    requires Enabled(s, a) && n == Next(s, a) && Path(n, [b], t)
    ensures Path(s, [a, b], t)
  {
    PathCons(s, a, [b], t);
    assert [a] + [b] == [a, b];
  }

  lemma Path3(s: State, a: Action, n: State, b: Action, m: State, rest: seq<Action>, t: State)
    requires Enabled(s, a) && n == Next(s, a) && Enabled(n, b) && m == Next(n, b) && Path(m, rest, t)
    ensures Path(s, [a, b] + rest, t)
  {
    PathCons(n, b, rest, t);
    PathCons(s, a, [b] + rest, t);
    assert [a] + ([b] + rest) == [a, b] + rest;
  }

  /** The state in which the monitor has made itself worker 1. */
  function Swapped(s: State, k: nat, task: nat): State {
    s.(count := 2, workers := s.workers[k := Worker(1, Owing(task))])
  }

  lemma JudgeAndSwap(s: State, k: nat, task: nat, rest: seq<Action>, t: State)
    requires At(s, k, Holding(task)) && s.count == 1 && Path(Swapped(s, k, task), rest, t)
    ensures Path(s, [Judge(k, true), Swap(k)] + rest, t)
  {
    var n := Move(s, k, Swapping(task));
    assert n.workers[k := Worker(1, Owing(task))] == Swapped(s, k, task).workers;
    Path3(s, Judge(k, true), n, Swap(k), Swapped(s, k, task), rest, t);
  }

  lemma SpawnAndSend(s: State, k: nat, task: nat) returns (t: State)
    requires At(s, k, Owing(task)) && s.workers[k].id == 1 && k != s.next
    ensures Path(s, [SpawnMonitor(k), Send(k, true)], t) && t.count == s.count && t.failed == s.failed
    ensures t.workers == s.workers[k := Worker(1, Working)][s.next := Worker(0, Connecting)]
    ensures t.sent == s.sent + multiset{task}
  {
    var n := Next(s, SpawnMonitor(k));
    assert n.workers[k] == Worker(1, Sending(task));
    t := Next(n, Send(k, true));
    PathOne(n, Send(k, true), t);
    Path2(s, SpawnMonitor(k), n, Send(k, true), t);
    assert t.workers[k] == Worker(1, Working);
  }

  /** A monitor alone that holds a task while requests are in flight becomes worker 1, spawns the next
      monitor and sends the task. */
  lemma Promotion(s: State, k: nat, task: nat) returns (t: State)
    requires Reachable(s) && At(s, k, Holding(task)) && s.count == 1
    ensures Path(s, [Judge(k, true), Swap(k)] + [SpawnMonitor(k), Send(k, true)], t)
    ensures t.workers == map[k := Worker(1, Working), s.next := Worker(0, Connecting)] && t.count == 2
    ensures t.sent == s.sent + multiset{task} && t.failed == s.failed
  {
    var acts :| Path(Init(), acts, s);
    var m := PathStaffed(Init(), acts, s, None);
    assert PhaseFits(s, s.workers[k]) && |s.workers| == 1;
    Alone1(s.workers, k);
    t := SpawnAndSend(Swapped(s, k, task), k, task);
    JudgeAndSwap(s, k, task, [SpawnMonitor(k), Send(k, true)], t);
  }

  lemma Alone1(m: map<nat, Worker>, k: nat)
    requires k in m && |m| == 1
    ensures m == map[k := m[k]]
  {
    var rest := m.Keys - {k};
    assert |rest| == 0;
    assert m.Keys == {k};
  }

  lemma JudgedSends(s: State, k: nat, task: nat) returns (t: State)
    requires At(s, k, Sending(task)) && s.workers[k].id == 0
    ensures Path(s, [Send(k, true)], t) && t.workers == s.workers[k := Worker(0, Watching)] && t.count == s.count
    ensures t.sent == s.sent + multiset{task} && t.failed == s.failed
  {
    t := Next(s, Send(k, true));
    PathOne(s, Send(k, true), t);
  }

  /** With nothing in flight, or with other workers, the monitor sends the task and stays the monitor. */
  lemma NoPromotion(s: State, k: nat, task: nat, inflight: bool) returns (t: State)
    requires Reachable(s) && At(s, k, Holding(task)) && !(inflight && s.count == 1)
    ensures Path(s, [Judge(k, inflight), Send(k, true)], t)
    ensures t.workers == s.workers[k := Worker(0, Watching)] && t.count == s.count
    ensures t.sent == s.sent + multiset{task} && t.failed == s.failed
  {
    var acts :| Path(Init(), acts, s);
    var m := PathStaffed(Init(), acts, s, None);
    assert PhaseFits(s, s.workers[k]);
    var n := Move(s, k, Sending(task));
    t := JudgedSends(n, k, task);
    Path2(s, Judge(k, inflight), n, Send(k, true), t);
  }

  /** A monitor alone takes the head of the channel into its hand. */
  lemma MonitorTakes(s: State, k: nat) returns (t: State)
    requires At(s, k, Watching) && s.count <= 1 && s.chan != []
    ensures Path(s, [Look(k), Take(k)], t) && At(t, k, Holding(s.chan[0])) && t.chan == s.chan[1..]
  {
    var n := Next(s, Look(k));
    t := Next(n, Take(k));
    PathOne(n, Take(k), t);
    Path2(s, Look(k), n, Take(k), t);
  }

  /** A monitor that is not alone leaves the channel alone: it pings and, if that fails, reconnects. */
  lemma MonitorPings(s: State, k: nat, up: bool) returns (t: State)
    requires At(s, k, Watching) && s.count > 1
    ensures Path(s, [Look(k), Ping(k, up)], t) && At(t, k, if up then Watching else Connecting)
    ensures t.chan == s.chan && t.sent == s.sent && t.failed == s.failed
  {
    var n := Next(s, Look(k));
    t := Next(n, Ping(k, up));
    PathOne(n, Ping(k, up), t);
    Path2(s, Look(k), n, Ping(k, up), t);
  }

  /** A worker other than the monitor connects and sends the head of the channel. */
  lemma WorkerSends(s: State, k: nat) returns (t: State)
    requires At(s, k, Connecting) && s.workers[k].id != 0 && s.chan != []
    ensures Path(s, [Connect(k, true), Work(k, true)], t) && At(t, k, Working)
    ensures t.sent == s.sent + multiset{s.chan[0]} && t.failed == s.failed && t.chan == s.chan[1..]
  {
    var n := Next(s, Connect(k, true));
    t := Next(n, Work(k, true));
    PathOne(n, Work(k, true), t);
    Path2(s, Connect(k, true), n, Work(k, true), t);
  }

  lemma {:induction false} Cleans(s: State, k: nat) returns (acts: seq<Action>, t: State)
    requires At(s, k, Cleaning)
    ensures Path(s, acts, t) && At(t, k, Connecting) && t.chan == []
    ensures t.failed == s.failed + multiset(s.chan) && t.sent == s.sent && t.ok == s.ok
    decreases |s.chan|
  {
    if s.chan == [] {
      t := Next(s, CleanEnd(k));
      PathCons(s, CleanEnd(k), [], t);
      acts := [CleanEnd(k)] + [];
    } else {
      var n := Put(s, Failed);
      var rest;
      assert Next(s, CleanOne(k)) == n && n.chan == s.chan[1..];
      assert n.failed == s.failed + multiset{s.chan[0]} && n.sent == s.sent;
      rest, t := Cleans(n, k);
      PathCons(s, CleanOne(k), rest, t);
      acts := [CleanOne(k)] + rest;
      HeadAndRest(s.chan);
    }
  }

  /** A worker that cannot connect, and a monitor alone whose ping fails, mark the pool unhealthy, fail
      everything in the channel and connect again. */
  lemma FailureCleans(s: State, k: nat) returns (acts: seq<Action>, t: State)
    requires At(s, k, Connecting) || At(s, k, Alone)
    ensures Path(s, [if At(s, k, Alone) then Ping(k, false) else Connect(k, false)] + acts, t)
    ensures At(t, k, Connecting) && !t.ok && t.chan == []
    ensures t.failed == s.failed + multiset(s.chan) && t.sent == s.sent
  {
    var a := if At(s, k, Alone) then Ping(k, false) else Connect(k, false);
    acts, t := Cleans(Next(s, a), k);
    PathCons(s, a, acts, t);
  }

  // ---------- The channel ----------

  function Submissions(acts: seq<Action>): seq<nat> {
    if acts == [] then [] else (if acts[0].Submit? then [acts[0].task] else []) + Submissions(acts[1..])
  }

  function Taken(acts: seq<Action>): nat {
    if acts == [] then 0
    else (if acts[0].Take? || acts[0].CleanOne? || acts[0].Work? then 1 else 0) + Taken(acts[1..])
  }

  lemma ChannelStep(s: State, a: Action)
    requires Enabled(s, a) && !a.Dispose?
    ensures Taken([a]) <= |s.chan| && Next(s, a).chan == s.chan[Taken([a])..] + Submissions([a])
  {
    assert [a][1..] == [] && Taken([]) == 0 && Submissions([]) == [];
    if WorkerEnabled(s, a) {
      WorkerChannel(s, a);
    } else {
      HandleChannel(s, a);
    }
  }

  lemma WorkerChannel(s: State, a: Action)
    requires WorkerEnabled(s, a)
    ensures WorkerNext(s, a).chan == if a.Take? || a.CleanOne? || a.Work? then s.chan[1..] else s.chan
  {
  }

  lemma HandleChannel(s: State, a: Action)
    requires HandleEnabled(s, a) && !a.Dispose?
    ensures HandleNext(s, a).chan == s.chan + if a.Submit? then [a.task] else []
  {
  }

  lemma {:induction false} ChannelCons(acts: seq<Action>)
    requires acts != []
    ensures Taken(acts) == Taken([acts[0]]) + Taken(acts[1..])
    ensures Submissions(acts) == Submissions([acts[0]]) + Submissions(acts[1..])
  {
    assert [acts[0]][1..] == [] && Taken([]) == 0 && Submissions([]) == [];
  }

  lemma Regrouped(c: seq<nat>, i: nat, a: seq<nat>, j: nat, b: seq<nat>)
    requires i <= |c| && j <= |c[i..] + a + b|
    ensures (c[i..] + a + b)[j..] == (c + (a + b))[i + j..]
  {
  }

  /** Tasks leave the channel in the order in which they were submitted, whichever workers take them. */
  lemma {:induction false} FirstInFirstOut(s: State, acts: seq<Action>, t: State)
    requires Path(s, acts, t) && Dispose !in acts
    ensures Taken(acts) <= |s.chan + Submissions(acts)| && t.chan == (s.chan + Submissions(acts))[Taken(acts)..]
    decreases |acts|
  {
    if acts != [] {
      var a, rest := acts[0], acts[1..];
      ChannelStep(s, a);
      ChannelCons(acts);
      FirstInFirstOut(Next(s, a), rest, t);
      Regrouped(s.chan, Taken([a]), Submissions([a]), Taken(rest), Submissions(rest));
    }
  }

  lemma OffChannelStep(s: State, a: Action, x: nat)
    requires Enabled(s, a) && x in s.place && x !in s.chan
    ensures x in Next(s, a).place && x !in Next(s, a).chan
  {
    if a.Dispose? { CleanAllPlaces(s); } else { ChannelStep(s, a); StillPlaced(s, a, x); }
  }

  lemma StillPlaced(s: State, a: Action, x: nat)
    requires Enabled(s, a) && x in s.place && !a.Dispose?
    ensures x in Next(s, a).place && (a.Submit? ==> a.task != x)
  {
    if WorkerEnabled(s, a) { WorkerPlaces(s, a, x); }
  }

  lemma WorkerPlaces(s: State, a: Action, x: nat)
    requires WorkerEnabled(s, a) && x in s.place
    ensures x in WorkerNext(s, a).place
  {
  }

  lemma {:induction false} CleanAllPlaces(s: State)
    ensures CleanAll(s).chan == [] && forall x :: x in s.place ==> x in CleanAll(s).place
    decreases |s.chan|
  {
    if s.chan != [] { CleanAllPlaces(Put(s, Failed)); }
  }

  lemma {:induction false} OffChannelRun(s: State, acts: seq<Action>, t: State, x: nat)
    requires Path(s, acts, t) && x in s.place && x !in s.chan
    ensures x !in t.chan
    decreases |acts|
  {
    if acts != [] {
      OffChannelStep(s, acts[0], x);
      OffChannelRun(Next(s, acts[0]), acts[1..], t, x);
    }
  }

  lemma CleaningStep(s: State, a: Action, k: nat)
    requires At(s, k, Cleaning) && Enabled(s, a) && s.next !in s.workers
    ensures if a == CleanEnd(k) then s.chan == [] else At(Next(s, a), k, Cleaning)
  {
    if WorkerEnabled(s, a) {
      if a.key != k { OthersStay(s, a, k); }
    } else if a.Dispose? {
      CleanAllStaff(s);
    }
  }

  lemma OthersStay(s: State, a: Action, k: nat)
    requires WorkerEnabled(s, a) && a.key != k && s.next != k && k in s.workers
    ensures k in WorkerNext(s, a).workers && WorkerNext(s, a).workers[k] == s.workers[k]
  {
    if IdleStep(a) {
      IdleOthersStay(s, a, k);
    } else if a.Swap? || a.SpawnMonitor? || a.Exit? {
      StaffOthersStay(s, a, k);
    } else {
      BusyOthersStay(s, a, k);
    }
  }

  lemma StaffOthersStay(s: State, a: Action, k: nat)
    requires WorkerEnabled(s, a) && a.key != k && s.next != k && k in s.workers
    requires a.Swap? || a.SpawnMonitor? || a.Exit?
    ensures k in WorkerNext(s, a).workers && WorkerNext(s, a).workers[k] == s.workers[k]
  {
  }

  lemma IdleOthersStay(s: State, a: Action, k: nat)
    requires WorkerEnabled(s, a) && a.key != k && k in s.workers && IdleStep(a)
    ensures k in WorkerNext(s, a).workers && WorkerNext(s, a).workers[k] == s.workers[k]
  {
  }

  lemma BusyOthersStay(s: State, a: Action, k: nat)
    requires WorkerEnabled(s, a) && a.key != k && k in s.workers
    requires a.Take? || a.Judge? || a.Send? || a.CleanOne? || a.Work?
    ensures k in WorkerNext(s, a).workers && WorkerNext(s, a).workers[k] == s.workers[k]
  {
  }

  lemma {:induction false} CleaningRun(s: State, acts: seq<Action>, t: State, k: nat, x: nat, m: Option<nat>)
    requires Path(s, acts, t) && Staffed(s, m) && At(s, k, Cleaning) && !At(t, k, Cleaning) && x in s.place
    ensures x !in t.chan
    decreases |acts|
  {
    var a := acts[0];
    CleaningStep(s, a, k);
    if a == CleanEnd(k) {
      OffChannelRun(s, acts, t, x);
    } else {
      if a.Dispose? { CleanAllPlaces(s); } else { StillPlaced(s, a, x); }
      var m' := StepStaffed(s, a, m);
      CleaningRun(Next(s, a), acts[1..], t, k, x, m');
    }
  }

  /** A worker that has done cleaning up has left nothing behind of what it found in the channel,
      whoever else was taking from it. */
  lemma CleanedOut(s: State, acts: seq<Action>, t: State, k: nat, x: nat)
    requires Reachable(s) && At(s, k, Cleaning) && x in s.chan && Path(s, acts, t) && !At(t, k, Cleaning)
    ensures x !in t.chan
  {
    var past :| Path(Init(), past, s);
    PathLedger(Init(), past, s, None);
    var m := PathStaffed(Init(), past, s, None);
    CleaningRun(s, acts, t, k, x, m);
  }
}
