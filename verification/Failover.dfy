/** Several servers behind one client: choosing a pool, following address changes, and retrying. */
module Failover {
  import opened Prelude
  import opened Errors

  // ---------- Selection ----------

  function Seed(roundRobin: bool, rr: nat, last: Option<nat>): nat {
    if last.Some? then last.value + 1 else if roundRobin then rr else 0
  }

  /** `i` is the first index from `seed` on, going once round, whose pool is healthy. */
  ghost predicate FirstHealthy(healthy: seq<bool>, seed: nat, i: nat) {
    var l := |healthy|;
    l > 0 && seed <= i < seed + l && healthy[i % l] && forall j :: seed <= j < i ==> !healthy[j % l]
  }

  lemma Shift(x: nat, l: nat)
    requires l > 0
    ensures (x + l) / l == x / l + 1 && (x + l) % l == x % l
  {
    var a, b := x / l, x % l;
    assert x == a * l + b;
    assert (a + 1) * l == a * l + l;
    DivModUnique(x + l, l, a + 1, b);
  }

  /** Going once round from anywhere meets every pool. */
  lemma GoesRound(seed: nat, l: nat, p: nat) returns (i: nat)
    requires p < l
    ensures seed <= i < seed + l && i % l == p
  {
    var q := seed / l;
    assert seed == q * l + seed % l;
    i := q * l + p;
    DivModUnique(i, l, q, p);
    if i < seed {
      Shift(i, l);
      i := i + l;
    }
  }

  /** Two indices of one round that name the same pool are the same index. */
  lemma SamePool(seed: nat, l: nat, i: nat, j: nat)
    requires l > 0 && seed <= i <= j < seed + l && i % l == j % l
    ensures i == j
  {
    var a, b := i / l, j / l;
    assert i == a * l + i % l && j == b * l + j % l;
    assert (b - a) * l == b * l - a * l;
    SmallMultiple(b - a, l);
  }

  /** The first index from `i` on, among `n` of them, whose pool is healthy. */
  function Scan(healthy: seq<bool>, i: nat, n: nat): Option<nat>
    requires |healthy| > 0
    decreases n
  {
    if n == 0 then None else if healthy[i % |healthy|] then Some(i) else Scan(healthy, i + 1, n - 1)
  }

  function Chosen(healthy: seq<bool>, seed: nat): Option<nat> {
    if |healthy| == 0 then None else Scan(healthy, seed, |healthy|)
  }

  lemma {:induction false} ScanIsFirst(healthy: seq<bool>, i: nat, n: nat)
    requires |healthy| > 0
    ensures var r := Scan(healthy, i, n);
            (r.None? <==> forall j :: i <= j < i + n ==> !healthy[j % |healthy|])
            && (r.Some? ==> i <= r.value < i + n && healthy[r.value % |healthy|]
                            && forall j :: i <= j < r.value ==> !healthy[j % |healthy|])
    decreases n
  {
    if n > 0 && !healthy[i % |healthy|] {
      ScanIsFirst(healthy, i + 1, n - 1);
    }
  }

  /** Some pool exactly if one is healthy, and then the first healthy one in cyclic order. */
  lemma ChosenExact(healthy: seq<bool>, seed: nat)
    ensures var r := Chosen(healthy, seed);
            (r.Some? <==> exists p :: 0 <= p < |healthy| && healthy[p])
            && (r.Some? ==> FirstHealthy(healthy, seed, r.value))
  {
    var l := |healthy|;
    if l > 0 {
      ScanIsFirst(healthy, seed, l);
      if Chosen(healthy, seed).None? {
        forall p | 0 <= p < l ensures !healthy[p] {
          var j := GoesRound(seed, l, p);
        }
      }
    }
  }

  /** `ClusterConfig::select`: some pool exactly if one is healthy, and then the first healthy one
      in cyclic order from the seed. */
  method Select(healthy: seq<bool>, roundRobin: bool, rr: nat, last: Option<nat>)
    returns (r: Option<nat>, rr': nat)
    ensures r.Some? <==> exists p :: 0 <= p < |healthy| && healthy[p]
    ensures r.Some? ==> FirstHealthy(healthy, Seed(roundRobin, rr, last), r.value)
    ensures r == Chosen(healthy, Seed(roundRobin, rr, last))
    ensures rr' == if |healthy| > 0 && last.None? && roundRobin then rr + 1 else rr
  {
    var l := |healthy|;
    rr' := rr;
    ChosenExact(healthy, Seed(roundRobin, rr, last));
    if l == 0 { return None, rr; }
    var seed := 0;
    if last.Some? {
      seed := last.value + 1;
    } else if roundRobin {
      seed := rr;
      rr' := rr + 1;
    }
    var i := seed;
    while i < seed + l
      invariant seed <= i <= seed + l
      invariant Scan(healthy, seed, l) == Scan(healthy, i, seed + l - i)
    {
      if healthy[i % l] {
        return Some(i), rr';
      }
      i := i + 1;
    }
    return None, rr';
  }

  /** A retry goes back to the pool that failed exactly if no other pool is healthy. */
  lemma RetryRepeats(healthy: seq<bool>, last: nat, i: nat)
    requires FirstHealthy(healthy, last + 1, i)
    ensures var l := |healthy|;
            i % l == last % l <==> forall p :: 0 <= p < l && p != last % l ==> !healthy[p]
  {
    var l := |healthy|;
    Shift(last, l);
    if i % l == last % l {
      SamePool(last + 1, l, i, last + l);
      forall p | 0 <= p < l && p != last % l ensures !healthy[p] {
        var j := GoesRound(last + 1, l, p);
      }
    }
  }

  // ---------- Fairness ----------

  /** 1 if number `c` names pool `p` of `l`, else 0. */
  function Hit(c: nat, l: nat, p: nat): nat
    requires l > 0
  {
    if c % l == p then 1 else 0
  }

  /** How many of the numbers from `c` up to `c + n` name pool `p`. */
  function Turns(c: nat, n: nat, l: nat, p: nat): nat
    requires l > 0
    decreases n
  {
    if n == 0 then 0 else Hit(c, l, p) + Turns(c + 1, n - 1, l, p)
  }

  lemma {:induction false} TurnsSplit(c: nat, m: nat, n: nat, l: nat, p: nat)
    requires l > 0
    ensures Turns(c, m + n, l, p) == Turns(c, m, l, p) + Turns(c + m, n, l, p)
    decreases m
  {
    if m > 0 { TurnsSplit(c + 1, m - 1, n, l, p); }
  }

  /** In one round or less, one turn exactly if the pool's index is among them. */
  lemma {:induction false} TurnsInRound(c: nat, n: nat, l: nat, p: nat, i: nat)
    requires p < l && n <= l && c <= i < c + l && i % l == p
    ensures Turns(c, n, l, p) == if i < c + n then 1 else 0
    decreases n
  {
    if n > 0 {
      if c % l == p {
        SamePool(c, l, c, i);
        NoTurn(c + 1, n - 1, l, p, c);
      } else {
        TurnsLater(c, n, l, p, i);
      }
    }
  }

  lemma {:induction false} NoTurn(c: nat, n: nat, l: nat, p: nat, start: nat)
    requires p < l && start < c && c + n <= start + l && start % l == p
    ensures Turns(c, n, l, p) == 0
    decreases n
  {
    if n > 0 {
      if c % l == p { SamePool(start, l, start, c); }
      NoTurn(c + 1, n - 1, l, p, start);
    }
  }

  lemma {:induction false} TurnsLater(c: nat, n: nat, l: nat, p: nat, i: nat)
    requires p < l && 0 < n <= l && c < i < c + l && i % l == p && c % l != p
    ensures Turns(c, n, l, p) == if i < c + n then 1 else 0
    decreases n, 0
  {
    TurnsInRound(c + 1, n - 1, l, p, i);
  }

  /** Round robin is fair: over any `n` consecutive turns each of `l` pools gets the floor or the
      ceiling of n / l of them. */
  lemma {:induction false} Fair(c: nat, n: nat, l: nat, p: nat)
    requires p < l
    ensures n / l <= Turns(c, n, l, p) <= (n + l - 1) / l
    decreases n
  {
    var i := GoesRound(c, l, p);
    if n < l {
      TurnsInRound(c, n, l, p, i);
      DivModUnique(n, l, 0, n);
      if n > 0 {
        DivModUnique(n - 1, l, 0, n - 1);
        Shift(n - 1, l);
      }
    } else {
      TurnsSplit(c, l, n - l, l, p);
      TurnsInRound(c, l, l, p, i);
      Fair(c + l, n - l, l, p);
      Shift(n - l, l);
      Shift(n - 1, l);
    }
  }

  function Picks(picks: seq<nat>, l: nat, p: nat): nat
    requires l > 0
  {
    if picks == [] then 0 else Picks(picks[..|picks| - 1], l, p) + Hit(picks[|picks| - 1], l, p)
  }

  /** `n` fresh selections in a row while every pool is healthy. */
  method SelectMany(healthy: seq<bool>, rr: nat, n: nat) returns (picks: seq<nat>)
    requires |healthy| > 0 && forall p :: 0 <= p < |healthy| ==> healthy[p]
    ensures |picks| == n
    ensures forall p :: 0 <= p < |healthy| ==>
            n / |healthy| <= Picks(picks, |healthy|, p) <= (n + |healthy| - 1) / |healthy|
  {
    var l := |healthy|;
    picks := [];
    var c := rr;
    while |picks| < n
      invariant |picks| <= n && c == rr + |picks|
      invariant forall p :: 0 <= p < l ==> Picks(picks, l, p) == Turns(rr, |picks|, l, p)
    {
      var r, c' := Select(healthy, true, c, None);
      assert healthy[0] && healthy[c % l];
      forall p | 0 <= p < l ensures Picks(picks + [c], l, p) == Turns(rr, |picks| + 1, l, p) {
        OneMoreTurn(picks, rr, l, p);
      }
      picks, c := picks + [r.value], c';
    }
    forall p | 0 <= p < l ensures n / l <= Picks(picks, l, p) <= (n + l - 1) / l {
      Fair(rr, n, l, p);
    }
  }

  lemma OneMoreTurn(picks: seq<nat>, rr: nat, l: nat, p: nat)
    requires l > 0 && Picks(picks, l, p) == Turns(rr, |picks|, l, p)
    ensures Picks(picks + [rr + |picks|], l, p) == Turns(rr, |picks| + 1, l, p)
  {
    var c := rr + |picks|;
    TurnsSplit(rr, |picks|, 1, l, p);
    assert Turns(c, 1, l, p) == Hit(c, l, p) + Turns(c + 1, 0, l, p);
    assert (picks + [c])[..|picks|] == picks;
  }

  // ---------- Address changes ----------

  /** One server's pool, known by its address; two pools are the same only if they are one object. */
  class ClientPool {
    const addr: string

    constructor (addr: string)
      ensures this.addr == addr
    {
      this.addr := addr;
    }
  }

  /** The last pool of the list for an address. */
  function Newest(pools: seq<ClientPool>, a: string): (r: Option<ClientPool>)
    ensures r.Some? ==> r.value.addr == a && r.value in pools
  {
    if pools == [] then None else
    var last := pools[|pools| - 1];
    if last.addr == a then Some(last) else Newest(pools[..|pools| - 1], a)
  }

  lemma {:induction false} NewestExact(pools: seq<ClientPool>, a: string, k: nat)
    requires k < |pools| && pools[k].addr == a
    requires forall j :: k < j < |pools| ==> pools[j].addr != a
    ensures Newest(pools, a) == Some(pools[k])
  {
    if k < |pools| - 1 { NewestExact(pools[..|pools| - 1], a, k); }
  }

  ghost predicate Indexes(m: map<string, ClientPool>, pools: seq<ClientPool>) {
    forall a :: (if a in m then Some(m[a]) else None) == Newest(pools, a)
  }

  method IndexPools(pools: seq<ClientPool>) returns (m: map<string, ClientPool>)
    ensures Indexes(m, pools)
  {
    m := map[];
    for i := 0 to |pools|
      invariant Indexes(m, pools[..i])
    {
      m := m[pools[i].addr := pools[i]];
      assert pools[..i + 1][..i] == pools[..i];
    }
    assert pools[..|pools|] == pools;
  }

  /** What the index still holds once the first `i` addresses have claimed theirs. */
  ghost function Unclaimed(existing: seq<ClientPool>, addrs: seq<string>, i: nat, a: string): Option<ClientPool>
    requires i <= |addrs|
  {
    if a in addrs[..i] then None else Newest(existing, a)
  }

  ghost predicate Holds(left: map<string, ClientPool>, existing: seq<ClientPool>, addrs: seq<string>, i: nat)
    requires i <= |addrs|
  {
    forall a :: (if a in left then Some(left[a]) else None) == Unclaimed(existing, addrs, i, a)
  }

  method Claim(existing: seq<ClientPool>, addrs: seq<string>, i: nat, left: map<string, ClientPool>)
    returns (pool: ClientPool, rest: map<string, ClientPool>)
    requires i < |addrs|
    requires Holds(left, existing, addrs, i)
    ensures Holds(rest, existing, addrs, i + 1)
    ensures pool.addr == addrs[i]
    ensures var was := Unclaimed(existing, addrs, i, addrs[i]);
            if was.Some? then pool == was.value else fresh(pool)
  {
    var a := addrs[i];
    assert addrs[..i + 1] == addrs[..i] + [a];
    assert Unclaimed(existing, addrs, i, a) == if a in left then Some(left[a]) else None;
    if a in left {
      pool, rest := left[a], left - {a};
    } else {
      pool := new ClientPool(a);
      rest := left;
    }
  }

  ghost predicate Came(existing: seq<ClientPool>, addrs: seq<string>, i: nat, pool: ClientPool)
    requires i < |addrs|
  {
    var was := Unclaimed(existing, addrs, i, addrs[i]);
    was.Some? ==> pool == was.value
  }

  /** `update_addrs`: one pool per address in order, no pool twice; the first mention of an address
      that had a pool keeps that very pool, every other mention gets a new one. */
  method UpdateAddrs(existing: seq<ClientPool>, addrs: seq<string>) returns (pools: seq<ClientPool>)
    ensures |pools| == |addrs|
    ensures forall i :: 0 <= i < |addrs| ==> pools[i].addr == addrs[i]
    ensures forall i, j :: 0 <= i < j < |addrs| ==> pools[i] != pools[j]
    ensures forall i :: 0 <= i < |addrs| ==>
              var was := if addrs[i] in addrs[..i] then None else Newest(existing, addrs[i]);
              if was.Some? then pools[i] == was.value else fresh(pools[i])
  {
    var left := IndexPools(existing);
    pools := [];
    for i := 0 to |addrs|
      invariant |pools| == i
      invariant Holds(left, existing, addrs, i)
      invariant forall j :: 0 <= j < i ==> pools[j].addr == addrs[j]
      invariant forall j :: 0 <= j < i ==> Came(existing, addrs, j, pools[j])
      invariant forall j :: 0 <= j < i && Unclaimed(existing, addrs, j, addrs[j]).None? ==> fresh(pools[j])
      invariant forall j, k :: 0 <= j < k < i ==> pools[j] != pools[k]
    {
      var pool;
      pool, left := Claim(existing, addrs, i, left);
      forall j | 0 <= j < i ensures pools[j] != pool {
        if addrs[j] == addrs[i] { assert addrs[j] in addrs[..i]; }
      }
      pools := pools + [pool];
    }
  }

  // ---------- Retrying ----------

  datatype Config = Config(ver: nat, pools: seq<nat>)

  datatype Reply = Success | Custom | Failure(err: RpcIntErr)

  predicate Transient(r: Reply) {
    r.Failure? && Retriable(r.err)
  }

  datatype Task = Task(lastIndex: nat, ver: nat, retry: nat, shouldRetry: bool, reply: Option<Reply>)

  datatype Stage = Flying | Queued | Finished

  /** A task and its history: the pools it was sent to and how often the caller was told. */
  datatype Entry = Entry(stage: Stage, task: Task, sent: seq<nat>, dones: nat)

  /** `counter` is the version counter; `built` are configurations that have a version and are not
      stored yet; `made` remembers the pools of every version handed out. */
  datatype State = State(
    limit: nat, roundRobin: bool, rr: nat, counter: nat,
    current: Option<Config>, built: seq<Config>, made: map<nat, seq<nat>>,
    tasks: map<nat, Entry>)

  function Init(limit: nat, roundRobin: bool, pools: seq<nat>): State {
    State(limit, roundRobin, 0, 1, Some(Config(0, pools)), [], map[0 := pools], map[])
  }

  datatype Action =
    | Submit(id: nat, healthy: seq<bool>)
    | Answer(id: nat, reply: Reply, open: bool)
    | Retry(id: nat, healthy: seq<bool>, alive: bool)
    | Build(pools: seq<nat>)
    | Store(k: nat)
    | DropPool

  predicate Sees(s: State, healthy: seq<bool>) {
    s.current.Some? ==> |healthy| == |s.current.value.pools|
  }

  predicate Enabled(s: State, a: Action) {
    match a
    case Submit(id, healthy) => id !in s.tasks && Sees(s, healthy)
    case Answer(id, _, _) => id in s.tasks && s.tasks[id].stage == Flying
    case Retry(id, healthy, _) => id in s.tasks && s.tasks[id].stage == Queued && Sees(s, healthy)
    case Build(_) => true
    case Store(k) => k < |s.built|
    case DropPool => true
  }

  /** Where a selection goes: the configuration's version, the index and the pool. */
  datatype Target = Target(ver: nat, index: nat, pool: nat)

  function Aim(s: State, healthy: seq<bool>, last: Option<nat>): Option<Target>
    requires Sees(s, healthy)
  {
    if s.current.None? then None else
    var c := s.current.value;
    var i := Chosen(healthy, Seed(s.roundRobin, s.rr, last));
    if i.None? || |c.pools| == 0 then None else Some(Target(c.ver, i.value, c.pools[i.value % |c.pools|]))
  }

  function Spun(s: State, last: Option<nat>): nat {
    if s.current.Some? && |s.current.value.pools| > 0 && last.None? && s.roundRobin then s.rr + 1 else s.rr
  }

  function Submitted(s: State, healthy: seq<bool>): Entry
    requires Sees(s, healthy)
  {
    var t := Aim(s, healthy, None);
    if t.Some? then Entry(Flying, Task(t.value.index, t.value.ver, 0, false, None), [t.value.pool], 0)
    else Entry(Finished, Task(0, 0, 0, false, Some(Failure(Unreachable))), [], 1)
  }

  /** `set_ok`, `set_custom_error` or `set_rpc_error`. */
  function Noted(t: Task, reply: Reply): Task {
    if Transient(reply) then t.(reply := Some(reply), shouldRetry := true, retry := t.retry + 1)
    else if reply.Success? then t.(reply := Some(reply))
    else t.(reply := Some(reply), shouldRetry := false)
  }

  /** `done` after a success and `error_handle` after an error; `open` says whether the retry
      channel takes the task. */
  function Answered(limit: nat, e: Entry, reply: Reply, open: bool): Entry {
    var t := Noted(e.task, reply);
    if !reply.Success? && t.shouldRetry && t.retry <= limit && open then e.(stage := Queued, task := t)
    else e.(stage := Finished, task := t, dones := e.dones + 1)
  }

  /** The index a retry starts after; a configuration the task has not seen starts afresh. */
  function Last(s: State, t: Task): Option<nat> {
    if s.current.Some? && s.current.value.ver == t.ver then Some(t.lastIndex) else None
  }

  function Retried(s: State, e: Entry, healthy: seq<bool>, alive: bool): Entry
    requires Sees(s, healthy)
  {
    var t := Aim(s, healthy, Last(s, e.task));
    if alive && t.Some? then
      e.(stage := Flying, task := e.task.(ver := t.value.ver, lastIndex := t.value.index),
          sent := e.sent + [t.value.pool])
    else
      e.(stage := Finished, dones := e.dones + 1,
         task := if alive && s.current.Some? then e.task.(ver := s.current.value.ver) else e.task)
  }

  function Next(s: State, a: Action): State
    requires Enabled(s, a)
  {
    match a
    case Submit(id, healthy) =>
      s.(rr := Spun(s, None), tasks := s.tasks[id := Submitted(s, healthy)])
    case Answer(id, reply, open) =>
      s.(tasks := s.tasks[id := Answered(s.limit, s.tasks[id], reply, open)])
    case Retry(id, healthy, alive) =>
      s.(rr := if alive then Spun(s, Last(s, s.tasks[id].task)) else s.rr,
         tasks := s.tasks[id := Retried(s, s.tasks[id], healthy, alive)])
    case Build(pools) =>
      var v := s.counter + 1;
      s.(counter := v, built := s.built + [Config(v, pools)], made := s.made[v := pools])
    case Store(k) =>
      s.(current := Some(s.built[k]), built := s.built[..k] + s.built[k + 1..])
    case DropPool => s.(current := None)
  }

  /** The task object the retry worker and the pools pass around. */
  class FailoverTask {
    var lastIndex: nat
    var clusterVer: nat
    var retry: nat
    var shouldRetry: bool
    var reply: Option<Reply>

    function View(): Task
      reads this
    {
      Task(lastIndex, clusterVer, retry, shouldRetry, reply)
    }

    constructor (index: nat, ver: nat)
      ensures View() == Task(index, ver, 0, false, None)
    {
      lastIndex, clusterVer, retry, shouldRetry, reply := index, ver, 0, false, None;
    }

    method SetRpcError(e: RpcIntErr)
      modifies this
      ensures View() == Noted(old(View()), Failure(e))
    {
      if Rank(e) < Rank(Method) {
        shouldRetry := true;
        retry := retry + 1;
      } else {
        shouldRetry := false;
      }
      reply := Some(Failure(e));
    }

    method SetCustomError()
      modifies this
      ensures View() == Noted(old(View()), Custom)
    {
      shouldRetry := false;
      reply := Some(Custom);
    }

    /** The end of one attempt: true if the task went to the retry channel, false if its caller was
        told. */
    method Finish(r: Reply, limit: nat, open: bool) returns (again: bool)
      modifies this
      ensures View() == Noted(old(View()), r)
      ensures again <==> Transient(r) && old(retry) < limit && open
    {
      match r {
        case Success =>
          reply := Some(Success);
          return false;
        case Custom => SetCustomError();
        case Failure(e) => SetRpcError(e);
      }
      if shouldRetry {
        if retry <= limit { return open; }
      }
      return false;
    }

    /** The retry worker's selection: counts on from the failed pool in an unchanged configuration,
        starts afresh in a new one. */
    method Reselect(roundRobin: bool, rr: nat, ver: nat, healthy: seq<bool>) returns (found: bool, rr': nat)
      modifies this`lastIndex, this`clusterVer
      ensures found <==> exists p :: 0 <= p < |healthy| && healthy[p]
      ensures found ==>
                var seed := if old(clusterVer) == ver then old(lastIndex) + 1 else if roundRobin then rr else 0;
                FirstHealthy(healthy, seed, lastIndex)
      ensures View() == old(View()).(ver := ver, lastIndex := lastIndex)
      ensures rr' == if healthy != [] && old(clusterVer) != ver && roundRobin then rr + 1 else rr
    {
      var last := Some(lastIndex);
      if ver != clusterVer {
        clusterVer := ver;
        last := None;
      }
      var r;
      r, rr' := Select(healthy, roundRobin, rr, last);
      found := r.Some?;
      if found { lastIndex := r.value; }
    }
  }

  ghost predicate Path(s: State, acts: seq<Action>, t: State)
    decreases |acts|
  {
    if acts == [] then s == t else Enabled(s, acts[0]) && Path(Next(s, acts[0]), acts[1..], t)
  }

  ghost predicate Reachable(s: State) {
    exists limit: nat, roundRobin: bool, pools: seq<nat>, acts: seq<Action> ::
      Path(Init(limit, roundRobin, pools), acts, s)
  }

  ghost predicate Known(s: State, c: Config) {
    c.ver in s.made && s.made[c.ver] == c.pools
  }

  /** The task's index names, in the pools of its version, the pool it was last sent to. */
  ghost predicate Placed(s: State, e: Entry) {
    && e.task.ver in s.made && e.sent != []
    && var pools := s.made[e.task.ver];
       |pools| > 0 && e.sent[|e.sent| - 1] == pools[e.task.lastIndex % |pools|]
  }

  ghost predicate EntryOk(s: State, e: Entry) {
    match e.stage
    case Flying => e.dones == 0 && |e.sent| == e.task.retry + 1 && e.task.retry <= s.limit && Placed(s, e)
    case Queued =>
      && e.dones == 0 && |e.sent| == e.task.retry && 1 <= e.task.retry <= s.limit && Placed(s, e)
      && e.task.shouldRetry && e.task.reply.Some? && Transient(e.task.reply.value)
    case Finished => e.dones == 1 && |e.sent| <= s.limit + 1 && e.task.reply.Some?
  }

  ghost predicate Inv(s: State) {
    && (forall v :: v in s.made ==> v <= s.counter)
    && (s.current.Some? ==> Known(s, s.current.value))
    && (forall k :: 0 <= k < |s.built| ==> Known(s, s.built[k]))
    && (forall id :: id in s.tasks ==> EntryOk(s, s.tasks[id]))
  }

  lemma AimLands(s: State, healthy: seq<bool>, last: Option<nat>)
    requires Inv(s) && Sees(s, healthy) && Aim(s, healthy, last).Some?
    ensures var t := Aim(s, healthy, last).value;
            && t.ver in s.made && |s.made[t.ver]| > 0
            && t.pool == s.made[t.ver][t.index % |s.made[t.ver]|]
  {
  }

  lemma ConfigStepKeeps(s: State, a: Action)
    requires Inv(s) && Enabled(s, a) && (a.Build? || a.Store? || a.DropPool?)
    ensures Inv(Next(s, a))
  {
    var n := Next(s, a);
    if a.Build? {
      assert forall v :: v in s.made ==> n.made[v] == s.made[v];
      forall id | id in n.tasks ensures EntryOk(n, n.tasks[id]) { assert EntryOk(s, s.tasks[id]); }
    } else {
      forall id | id in n.tasks ensures EntryOk(n, n.tasks[id]) { assert EntryOk(s, s.tasks[id]); }
    }
  }

  lemma EntryStepKeeps(s: State, a: Action)
    requires Inv(s) && Enabled(s, a) && (a.Submit? || a.Answer? || a.Retry?)
    ensures EntryOk(Next(s, a), Next(s, a).tasks[a.id])
  {
    match a
    case Submit(id, healthy) =>
      if Aim(s, healthy, None).Some? { AimLands(s, healthy, None); }
    case Answer(id, reply, open) =>
      assert EntryOk(s, s.tasks[id]);
    case Retry(id, healthy, alive) =>
      var e := s.tasks[id];
      assert EntryOk(s, e);
      if Aim(s, healthy, Last(s, e.task)).Some? { AimLands(s, healthy, Last(s, e.task)); }
  }

  lemma StepKeeps(s: State, a: Action)
    requires Inv(s) && Enabled(s, a)
    ensures Inv(Next(s, a))
  {
    if a.Build? || a.Store? || a.DropPool? {
      ConfigStepKeeps(s, a);
    } else {
      EntryStepKeeps(s, a);
      var n := Next(s, a);
      forall id | id in n.tasks && id != a.id ensures EntryOk(n, n.tasks[id]) { assert EntryOk(s, s.tasks[id]); }
    }
  }

  lemma {:induction false} PathKeeps(s: State, acts: seq<Action>, t: State)
    requires Inv(s) && Path(s, acts, t)
    ensures Inv(t)
    decreases |acts|
  {
    if acts != [] {
      StepKeeps(s, acts[0]);
      PathKeeps(Next(s, acts[0]), acts[1..], t);
    }
  }

  lemma ReachableInv(s: State)
    requires Reachable(s)
    ensures Inv(s)
  {
    var limit: nat, roundRobin: bool, pools: seq<nat>, acts: seq<Action> :|
      Path(Init(limit, roundRobin, pools), acts, s);
    PathKeeps(Init(limit, roundRobin, pools), acts, s);
  }

  /** The caller is told once, and a task is sent at most `limit + 1` times. */
  lemma SingleDelivery(s: State, id: nat)
    requires Reachable(s) && id in s.tasks
    ensures var e := s.tasks[id];
            && e.dones == (if e.stage == Finished then 1 else 0)
            && |e.sent| <= s.limit + 1
            && (e.stage == Finished ==> e.task.reply.Some?)
  {
    ReachableInv(s);
    assert EntryOk(s, s.tasks[id]);
  }

  /** A task the caller was told about is never touched again. */
  lemma {:induction false} DoneForGood(s: State, acts: seq<Action>, t: State, id: nat)
    requires Path(s, acts, t) && id in s.tasks && s.tasks[id].stage == Finished
    ensures id in t.tasks && t.tasks[id] == s.tasks[id]
    decreases |acts|
  {
    if acts != [] { DoneForGood(Next(s, acts[0]), acts[1..], t, id); }
  }

  /** Success, a user error and every internal error from `Method` up end the task at once: that
      very reply is what the caller gets, and it is not sent again. */
  lemma FinalReplies(s: State, id: nat, reply: Reply, open: bool, acts: seq<Action>, t: State)
    requires Reachable(s) && id in s.tasks && s.tasks[id].stage == Flying && !Transient(reply)
    requires Path(Next(s, Answer(id, reply, open)), acts, t)
    ensures id in t.tasks && t.tasks[id].dones == 1 && t.tasks[id].sent == s.tasks[id].sent
    ensures t.tasks[id].task.reply == Some(reply)
  {
    ReachableInv(s);
    assert EntryOk(s, s.tasks[id]);
    DoneForGood(Next(s, Answer(id, reply, open)), acts, t, id);
  }

  /** Steps a task may still take. */
  function Remaining(s: State, id: nat): int {
    if id !in s.tasks then 2 * s.limit + 2 else
    var e := s.tasks[id];
    match e.stage
    case Flying => 2 * (s.limit - e.task.retry) + 1
    case Queued => 2 * (s.limit - e.task.retry) + 2
    case Finished => 0
  }

  function StepsOf(acts: seq<Action>, id: nat): nat {
    if acts == [] then 0 else
    (if StepOf(acts[0], id) then 1 else 0) + StepsOf(acts[1..], id)
  }

  predicate StepOf(a: Action, id: nat) {
    (a.Submit? || a.Answer? || a.Retry?) && a.id == id
  }

  lemma StepSpends(s: State, a: Action, id: nat)
    requires Inv(s) && Enabled(s, a)
    ensures (if StepOf(a, id) then 1 else 0) <= Remaining(s, id) - Remaining(Next(s, a), id)
  {
    if id in s.tasks { assert EntryOk(s, s.tasks[id]); }
  }

  lemma {:induction false} StepsBound(s: State, acts: seq<Action>, t: State, id: nat)
    requires Inv(s) && Path(s, acts, t)
    ensures StepsOf(acts, id) <= Remaining(s, id) - Remaining(t, id)
    decreases |acts|
  {
    if acts != [] {
      StepKeeps(s, acts[0]);
      StepSpends(s, acts[0], id);
      StepsBound(Next(s, acts[0]), acts[1..], t, id);
    }
  }

  /** No task is retried for ever: in any run it takes at most `2 * limit + 2` steps, and while it
      is not finished it still has one to take. */
  lemma Terminates(limit: nat, roundRobin: bool, pools: seq<nat>, acts: seq<Action>, t: State, id: nat)
    requires Path(Init(limit, roundRobin, pools), acts, t)
    ensures StepsOf(acts, id) <= 2 * limit + 2
    ensures id in t.tasks && t.tasks[id].stage != Finished ==> StepsOf(acts, id) < 2 * limit + 2
  {
    var s := Init(limit, roundRobin, pools);
    StepsBound(s, acts, t, id);
    PathKeeps(s, acts, t);
    LimitStays(s, acts, t);
    if id in t.tasks { assert EntryOk(t, t.tasks[id]); }
  }

  lemma {:induction false} LimitStays(s: State, acts: seq<Action>, t: State)
    requires Path(s, acts, t)
    ensures t.limit == s.limit
    decreases |acts|
  {
    if acts != [] { LimitStays(Next(s, acts[0]), acts[1..], t); }
  }

  /** A version number, once handed out, means the same pools for ever. */
  lemma {:induction false} VersionsNeverReused(s: State, acts: seq<Action>, t: State, ver: nat)
    requires Inv(s) && Path(s, acts, t) && ver in s.made
    ensures ver in t.made && t.made[ver] == s.made[ver]
    ensures t.current.Some? && t.current.value.ver == ver ==> t.current.value.pools == s.made[ver]
    decreases |acts|
  {
    if acts != [] {
      StepKeeps(s, acts[0]);
      VersionsNeverReused(Next(s, acts[0]), acts[1..], t, ver);
    }
  }

  /** A retry within one configuration counts on from the pool that failed, whatever address
      changes happened in between: it goes back to that pool exactly if no other is healthy. */
  lemma RetryMovesOn(s: State, id: nat, healthy: seq<bool>)
    requires Reachable(s) && Enabled(s, Retry(id, healthy, true))
    requires s.current.Some? && s.current.value.ver == s.tasks[id].task.ver
    requires exists p :: 0 <= p < |healthy| && healthy[p]
    ensures var e, e' := s.tasks[id], Next(s, Retry(id, healthy, true)).tasks[id];
            var pools, failed := s.current.value.pools, e.task.lastIndex % |healthy|;
            && e.sent != [] && e.sent[|e.sent| - 1] == pools[failed]
            && e'.stage == Flying && e'.task.ver == e.task.ver
            && e'.sent == e.sent + [pools[e'.task.lastIndex % |healthy|]]
            && (e'.task.lastIndex % |healthy| == failed
                <==> forall p :: 0 <= p < |healthy| && p != failed ==> !healthy[p])
  {
    ReachableInv(s);
    var e := s.tasks[id];
    assert EntryOk(s, e);
    ChosenExact(healthy, e.task.lastIndex + 1);
    var i := Chosen(healthy, e.task.lastIndex + 1).value;
    RetryRepeats(healthy, e.task.lastIndex, i);
  }
}
