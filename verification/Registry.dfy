/** The registry of sent requests of one client connection as a value: a bounded channel filled
    by the sender, the requests of the current second, and one batch for each past second. */
module Registry {
  import opened Prelude

  /** The result of polling a future once. */
  datatype Poll<+T> = Pending | Ready(value: T)

  /** A registered task: `sn` is the sequence number on the wire, `id` the caller's task. */
  datatype Item = Item(sn: nat, id: nat)

  type Batch = map<nat, Item>

  /** The registry as a value. `delay[0]` is the batch of the last full second. `timedOut` and
      `cleaned` collect the tasks handed to `error_handle` with Timeout and IO; hash maps are
      iterated in no particular order, so these are multisets. */
  datatype State = State(
    chan: seq<Item>,
    count: int,
    sent: Batch,
    delay: seq<Batch>,
    minDelay: nat,
    timeout: nat,
    processed: nat,
    stopped: bool,
    timedOut: multiset<nat>,
    cleaned: multiset<nat>)

  function Initial(timeout: nat): State {
    State([], 0, map[], [], 0, timeout, 0, false, multiset{}, multiset{})
  }

  /** All batches, youngest first: a task's index here is its age in ticks. */
  function Batches(s: State): seq<Batch> {
    [s.sent] + s.delay
  }

  // ---------- What every operation keeps ----------

  ghost predicate ChannelOk(chan: seq<Item>, processed: nat) {
    && (forall i :: 0 <= i < |chan| ==> processed < chan[i].sn)
    && (forall i, j :: 0 <= i < j < |chan| ==> chan[i].sn < chan[j].sn)
  }

  ghost predicate Keyed(b: Batch, lo: nat, hi: nat) {
    forall q :: q in b ==> b[q].sn == q && lo < q <= hi
  }

  ghost predicate Above(b: Batch, c: Batch) {
    forall q, r :: q in b && r in c ==> r < q
  }

  ghost predicate BatchesOk(bs: seq<Batch>, lo: nat, hi: nat) {
    && (forall k :: 0 <= k < |bs| ==> Keyed(bs[k], lo, hi))
    && (forall j, k :: 0 <= j < k < |bs| ==> Above(bs[j], bs[k]))
  }

  /** Sequence numbers grow along the channel and from older batches to younger ones, and the
      shortcut bound `minDelay` stays below every task still held. */
  ghost predicate Wf(s: State) {
    && s.minDelay <= s.processed
    && |s.delay| <= s.timeout
    && ChannelOk(s.chan, s.processed)
    && BatchesOk(Batches(s), s.minDelay, s.processed)
  }

  // ---------- The registry as one map ----------

  function FindChannel(chan: seq<Item>, q: nat): Option<Item> {
    if chan == [] then None else if chan[0].sn == q then Some(chan[0]) else FindChannel(chan[1..], q)
  }

  function Find(bs: seq<Batch>, q: nat): Option<Item> {
    if bs == [] then None else if q in bs[0] then Some(bs[0][q]) else Find(bs[1..], q)
  }

  /** The map the registry stands for: the channel, the current second and all past ones. */
  function Lookup(s: State, q: nat): Option<Item> {
    var c := FindChannel(s.chan, q);
    if c.Some? then c else Find(Batches(s), q)
  }

  lemma {:induction false} FindChannelNone(chan: seq<Item>, q: nat)
    requires forall i :: 0 <= i < |chan| ==> chan[i].sn != q
    ensures FindChannel(chan, q) == None
  {
    if chan != [] { FindChannelNone(chan[1..], q); }
  }

  lemma {:induction false} FindNone(bs: seq<Batch>, q: nat)
    requires forall k :: 0 <= k < |bs| ==> q !in bs[k]
    ensures Find(bs, q) == None
  {
    if bs != [] {
      assert forall k :: 0 <= k < |bs[1..]| ==> bs[1..][k] == bs[k + 1];
      FindNone(bs[1..], q);
    }
  }

  lemma {:induction false} FindFirst(bs: seq<Batch>, q: nat, k: nat)
    requires k < |bs| && q in bs[k] && forall i :: 0 <= i < k ==> q !in bs[i]
    ensures Find(bs, q) == Some(bs[k][q])
  {
    if k > 0 {
      assert forall i :: 0 <= i < |bs[1..]| ==> bs[1..][i] == bs[i + 1];
      FindFirst(bs[1..], q, k - 1);
    }
  }

  /** A lookup that succeeds names the one batch that holds the number. */
  lemma TheBatch(s: State, q: nat) returns (k: nat)
    requires Wf(s) && Find(Batches(s), q).Some?
    ensures k < |Batches(s)| && forall i :: 0 <= i < |Batches(s)| ==> (q in Batches(s)[i] <==> i == k)
    ensures Find(Batches(s), q) == Some(Batches(s)[k][q]) && Batches(s)[k][q].sn == q
  {
    var bs := Batches(s);
    if forall i :: 0 <= i < |bs| ==> q !in bs[i] { FindNone(bs, q); }
    k :| 0 <= k < |bs| && q in bs[k];
    forall i | 0 <= i < |bs| && q in bs[i] ensures i == k {
      assert i < k ==> Above(bs[i], bs[k]);
      assert k < i ==> Above(bs[k], bs[i]);
    }
    assert Keyed(bs[k], s.minDelay, s.processed);
    FindFirst(bs, q, k);
  }

  lemma {:induction false} FindSnoc(bs: seq<Batch>, b: Batch, q: nat)
    ensures Find(bs + [b], q) == if Find(bs, q).Some? then Find(bs, q)
                                 else if q in b then Some(b[q]) else None
  {
    if bs == [] {
      assert ([] + [b])[1..] == [];
    } else {
      assert (bs + [b])[1..] == bs[1..] + [b];
      FindSnoc(bs[1..], b, q);
    }
  }

  lemma {:induction false} FindWithout(bs: seq<Batch>, cs: seq<Batch>, q: nat, x: nat)
    requires |cs| == |bs| && forall i :: 0 <= i < |bs| ==> cs[i] == bs[i] - {q}
    ensures Find(cs, x) == if x == q then None else Find(bs, x)
  {
    if bs != [] { FindWithout(bs[1..], cs[1..], q, x); }
  }

  // ---------- The operations as functions ----------

  function Register(s: State, it: Item): State {
    s.(chan := s.chan + [it])
  }

  /** got_pending_task on the head of the channel. */
  function Got(s: State): State
    requires s.chan != []
  {
    var it := s.chan[0];
    s.(chan := s.chan[1..], count := s.count - 1, processed := it.sn, sent := s.sent[it.sn := it])
  }

  function Drained(s: State): State
    decreases |s.chan|
  {
    if s.chan == [] then s else Drained(Got(s))
  }

  /** Forget `q` in every batch. */
  function Without(s: State, q: nat): State {
    s.(sent := s.sent - {q}, delay := seq(|s.delay|, i requires 0 <= i < |s.delay| => s.delay[i] - {q}))
  }

  predicate IsMinimum(m: nat, keys: set<nat>) {
    m in keys && forall k :: k in keys ==> m <= k
  }

  function Minimum(keys: set<nat>): (m: nat)
    requires keys != {}
    ensures IsMinimum(m, keys)
  {
    MinimumExists(keys);
    var m :| IsMinimum(m, keys);
    m
  }

  lemma {:induction false} MinimumExists(keys: set<nat>)
    requires keys != {}
    ensures exists m :: IsMinimum(m, keys)
  {
    var x :| x in keys;
    var rest := keys - {x};
    assert keys == rest + {x};
    if rest == {} {
      assert IsMinimum(x, keys);
    } else {
      MinimumExists(rest);
      var y :| IsMinimum(y, rest);
      assert IsMinimum(if x < y then x else y, keys);
    }
  }

  /** adjust_task_queue: everything grows one tick older, and the batch that fell off times out. */
  function Adjusted(s: State): State {
    var queue := Batches(s);
    if |queue| <= s.timeout then
      s.(sent := map[], delay := queue)
    else
      var oldest := queue[|queue| - 1];
      var rest := s.(sent := map[], delay := queue[..|queue| - 1]);
      if oldest == map[] then rest
      else rest.(minDelay := Minimum(oldest.Keys), timedOut := s.timedOut + multiset(oldest.Keys))
  }

  function BatchKeys(bs: seq<Batch>): multiset<nat> {
    if bs == [] then multiset{} else multiset(bs[0].Keys) + BatchKeys(bs[1..])
  }

  /** The second half of clean_pending_tasks: every batch is emptied, none is dropped. */
  function Emptied(s: State): State {
    s.(sent := map[], delay := seq(|s.delay|, i => map[]), cleaned := s.cleaned + BatchKeys(Batches(s)))
  }

  function Cleaned(s: State): State {
    Emptied(Drained(s))
  }

  ghost predicate AllEmpty(bs: seq<Batch>) {
    forall k :: 0 <= k < |bs| ==> bs[k] == map[]
  }

  // ---------- Preservation ----------

  lemma RegisterKeeps(s: State, it: Item)
    requires Wf(s)
    requires s.processed < it.sn && forall i :: 0 <= i < |s.chan| ==> s.chan[i].sn < it.sn
    ensures Wf(Register(s, it))
  {
    assert Batches(Register(s, it)) == Batches(s);
  }

  /** Batches that shrink, item for item, keep their order. */
  lemma SmallerBatches(bs: seq<Batch>, cs: seq<Batch>, lo: nat, hi: nat)
    requires BatchesOk(bs, lo, hi) && |cs| == |bs|
    requires forall k, q :: 0 <= k < |bs| && q in cs[k] ==> q in bs[k] && cs[k][q] == bs[k][q]
    ensures BatchesOk(cs, lo, hi)
  {
    forall k | 0 <= k < |cs| ensures Keyed(cs[k], lo, hi) {
      assert Keyed(bs[k], lo, hi);
    }
    forall j, k | 0 <= j < k < |cs| ensures Above(cs[j], cs[k]) {
      assert Above(bs[j], bs[k]);
    }
  }

  lemma GotKeeps(s: State)
    requires Wf(s) && s.chan != []
    ensures Wf(Got(s)) && s.chan[0].sn !in s.sent
  {
    var t := Got(s);
    var bs, cs := Batches(s), Batches(t);
    assert Keyed(bs[0], s.minDelay, s.processed);
    forall k | 0 <= k < |cs| ensures Keyed(cs[k], t.minDelay, t.processed) {
      assert Keyed(bs[k], s.minDelay, s.processed);
    }
    forall j, k | 0 <= j < k < |cs| ensures Above(cs[j], cs[k]) {
      assert Above(bs[j], bs[k]);
      assert Keyed(bs[k], s.minDelay, s.processed);
    }
  }

  /** Moving a task from the channel into the current second changes no lookup. */
  lemma GotLookup(s: State, q: nat)
    requires Wf(s) && s.chan != []
    ensures Lookup(Got(s), q) == Lookup(s, q)
  {
    if q == s.chan[0].sn { FindChannelNone(s.chan[1..], q); }
    assert Batches(s)[1..] == s.delay == Batches(Got(s))[1..];
  }

  lemma {:induction false} DrainedKeeps(s: State)
    requires Wf(s)
    ensures Wf(Drained(s))
    ensures forall q :: Lookup(Drained(s), q) == Lookup(s, q)
    decreases |s.chan|
  {
    if s.chan != [] {
      GotKeeps(s);
      DrainedKeeps(Got(s));
      forall q ensures Lookup(Got(s), q) == Lookup(s, q) { GotLookup(s, q); }
    }
  }

  /** What a drain changes besides `sent`. */
  lemma {:induction false} DrainedFields(s: State)
    ensures Drained(s) == s.(chan := [], count := s.count - |s.chan|, sent := Drained(s).sent,
                             processed := if s.chan == [] then s.processed else s.chan[|s.chan| - 1].sn)
    decreases |s.chan|
  {
    if s.chan != [] { DrainedFields(Got(s)); }
  }

  lemma WithoutKeeps(s: State, q: nat)
    requires Wf(s) && q <= s.processed
    ensures Wf(Without(s, q))
    ensures forall x :: Lookup(Without(s, q), x) == if x == q then None else Lookup(s, x)
  {
    var t := Without(s, q);
    WithoutShape(s, q);
    SmallerBatches(Batches(s), Batches(t), s.minDelay, s.processed);
    forall x ensures Lookup(t, x) == if x == q then None else Lookup(s, x) {
      if x == q { FindChannelNone(s.chan, q); }
      FindWithout(Batches(s), Batches(t), q, x);
    }
  }

  lemma AdjustedShift(s: State)
    requires |s.delay| <= s.timeout
    ensures var bs, cs := Batches(s), Batches(Adjusted(s));
            && cs[0] == map[] && cs[1..] == (if |s.delay| == s.timeout then bs[..s.timeout] else bs)
            && forall k :: 1 <= k < |cs| ==> cs[k] == bs[k - 1]
  {
  }

  lemma AdjustedKeeps(s: State)
    requires Wf(s)
    ensures Wf(Adjusted(s)) && s.minDelay <= Adjusted(s).minDelay
  {
    AdjustedShift(s);
    var t := Adjusted(s);
    var bs, cs := Batches(s), Batches(t);
    var last := bs[|bs| - 1];
    assert Keyed(last, s.minDelay, s.processed);
    forall k | 0 <= k < |cs| ensures Keyed(cs[k], t.minDelay, t.processed) {
      if k > 0 {
        assert Keyed(bs[k - 1], s.minDelay, s.processed);
        if t.minDelay != s.minDelay { assert Above(bs[k - 1], last); }
      }
    }
    forall j, k | 0 <= j < k < |cs| ensures Above(cs[j], cs[k]) {
      if j > 0 { assert Above(bs[j - 1], bs[k - 1]); }
    }
  }

  /** The shortcut bound is the least number of the batch that timed out last. */
  lemma AdjustedBound(s: State)
    requires |s.delay| <= s.timeout
    ensures if |s.delay| == s.timeout && Batches(s)[s.timeout] != map[]
            then IsMinimum(Adjusted(s).minDelay, Batches(s)[s.timeout].Keys)
            else Adjusted(s).minDelay == s.minDelay
  {
  }

  /** The task sits in the batch the next tick pushes out. */
  ghost predicate AtTimeout(s: State, q: nat)
    requires |s.delay| <= s.timeout
  {
    |s.delay| == s.timeout && q in Batches(s)[s.timeout]
  }

  /** A tick changes the answer for exactly the tasks that reached the timeout. */
  lemma AdjustedLookup(s: State, q: nat)
    requires Wf(s)
    ensures Lookup(Adjusted(s), q) == if AtTimeout(s, q) then None else Lookup(s, q)
  {
    AdjustedShift(s);
    var bs := Batches(s);
    if |s.delay| == s.timeout {
      var front, last := bs[..s.timeout], bs[s.timeout];
      assert bs == front + [last];
      FindSnoc(front, last, q);
      if q in last {
        assert Keyed(last, s.minDelay, s.processed);
        FindChannelNone(s.chan, q);
        forall k | 0 <= k < |front| ensures q !in front[k] { assert Above(bs[k], last); }
        FindNone(front, q);
      }
    }
  }

  // ---------- Conservation ----------

  function ChannelKeys(chan: seq<Item>): multiset<nat> {
    if chan == [] then multiset{} else multiset{chan[0].sn} + ChannelKeys(chan[1..])
  }

  /** The sequence numbers of everything held, with multiplicity. */
  function Held(s: State): multiset<nat> {
    ChannelKeys(s.chan) + BatchKeys(Batches(s))
  }

  lemma {:induction false} ChannelKeysAppend(chan: seq<Item>, it: Item)
    ensures ChannelKeys(chan + [it]) == ChannelKeys(chan) + multiset{it.sn}
  {
    if chan != [] {
      assert (chan + [it])[1..] == chan[1..] + [it];
      ChannelKeysAppend(chan[1..], it);
    }
  }

  lemma {:induction false} BatchKeysConcat(bs: seq<Batch>, cs: seq<Batch>)
    ensures BatchKeys(bs + cs) == BatchKeys(bs) + BatchKeys(cs)
  {
    if bs == [] {
      assert bs + cs == cs;
    } else {
      assert (bs + cs)[1..] == bs[1..] + cs;
      BatchKeysConcat(bs[1..], cs);
    }
  }

  lemma BatchKeysSnoc(bs: seq<Batch>, k: nat)
    requires k < |bs|
    ensures BatchKeys(bs[..k + 1]) == BatchKeys(bs[..k]) + multiset(bs[k].Keys)
  {
    assert bs[..k + 1] == bs[..k] + [bs[k]];
    BatchKeysConcat(bs[..k], [bs[k]]);
    BatchKeysOne(bs[k]);
  }

  lemma BatchKeysOne(b: Batch)
    ensures BatchKeys([b]) == multiset(b.Keys)
  {
    assert [b][1..] == [];
  }

  lemma {:induction false} BatchKeysEmpty(bs: seq<Batch>)
    ensures BatchKeys(bs) == multiset{} <==> AllEmpty(bs)
  {
    if bs != [] {
      BatchKeysEmpty(bs[1..]);
      assert AllEmpty(bs) <==> bs[0] == map[] && AllEmpty(bs[1..]) by {
        if bs[0] == map[] && AllEmpty(bs[1..]) {
          forall k | 0 <= k < |bs| ensures bs[k] == map[] {
            if k > 0 { assert bs[k] == bs[1..][k - 1]; }
          }
        }
      }
      if bs[0] != map[] {
        var q :| q in bs[0];
        assert q in BatchKeys(bs);
      }
    }
  }

  lemma RegisterHeld(s: State, it: Item)
    ensures Held(Register(s, it)) == Held(s) + multiset{it.sn}
  {
    ChannelKeysAppend(s.chan, it);
    assert Batches(Register(s, it)) == Batches(s);
  }

  lemma GotHeld(s: State)
    requires Wf(s) && s.chan != []
    ensures Held(Got(s)) == Held(s)
  {
    GotKeeps(s);
    var q := s.chan[0].sn;
    assert Got(s).sent.Keys == s.sent.Keys + {q};
    assert Batches(s)[1..] == s.delay == Batches(Got(s))[1..];
  }

  lemma {:induction false} WithoutBatchKeys(bs: seq<Batch>, cs: seq<Batch>, q: nat, k: nat)
    requires |cs| == |bs| && forall i :: 0 <= i < |bs| ==> cs[i] == bs[i] - {q}
    requires k < |bs| && forall i :: 0 <= i < |bs| ==> (q in bs[i] <==> i == k)
    ensures BatchKeys(bs) == BatchKeys(cs) + multiset{q}
  {
    if k == 0 {
      KeysWithout(bs[0], q);
      SameBatches(bs[1..], cs[1..], q);
      Shuffle(multiset(cs[0].Keys), multiset{q}, BatchKeys(cs[1..]));
    } else {
      SameBatches([bs[0]], [cs[0]], q);
      WithoutBatchKeys(bs[1..], cs[1..], q, k - 1);
      Shuffle(multiset(cs[0].Keys), BatchKeys(cs[1..]), multiset{q});
    }
  }

  lemma KeysWithout(b: Batch, q: nat)
    requires q in b
    ensures multiset(b.Keys) == multiset((b - {q}).Keys) + multiset{q}
  {
    assert b.Keys == (b - {q}).Keys + {q};
  }

  lemma Shuffle(a: multiset<nat>, b: multiset<nat>, c: multiset<nat>)
    ensures (a + b) + c == (a + c) + b && (a + b) + c == a + (b + c)
  {
  }

  lemma EmptyFront(bs: seq<Batch>)
    ensures BatchKeys([map[]] + bs) == BatchKeys(bs)
  {
    assert ([map[]] + bs)[1..] == bs;
    assert multiset(([map[]] + bs)[0].Keys) == multiset{};
  }

  lemma Regroup(c: multiset<nat>, f: multiset<nat>, l: multiset<nat>, t: multiset<nat>)
    ensures (c + f) + (t + l) == (c + (f + l)) + t
  {
  }

  lemma AdjustedHeld(s: State)
    requires |s.delay| <= s.timeout
    ensures Held(Adjusted(s)) + Adjusted(s).timedOut == Held(s) + s.timedOut
  {
    var bs, t := Batches(s), Adjusted(s);
    EmptyFront(t.delay);
    if |s.delay| == s.timeout {
      var n := s.timeout;
      assert bs == bs[..n + 1];
      BatchKeysSnoc(bs, n);
      assert t.timedOut == s.timedOut + multiset(bs[n].Keys) by {
        if bs[n] == map[] { assert multiset(bs[n].Keys) == multiset{}; }
      }
      Regroup(ChannelKeys(s.chan), BatchKeys(bs[..n]), multiset(bs[n].Keys), s.timedOut);
    }
  }

  lemma EmptiedHeld(s: State)
    ensures Held(Emptied(s)) == ChannelKeys(s.chan) && AllEmpty(Batches(Emptied(s)))
    ensures Held(Emptied(s)) + Emptied(s).cleaned == Held(s) + s.cleaned
  {
    BatchKeysEmpty(Batches(Emptied(s)));
  }

  lemma EmptiedIs(s: State, t: State)
    requires |t.delay| == |s.delay| && AllEmpty(t.delay)
    requires t == s.(sent := map[], delay := t.delay,
             cleaned := (s.cleaned + multiset(s.sent.Keys)) + BatchKeys(s.delay))
    ensures t == Emptied(s)
  {
    assert Batches(s)[1..] == s.delay;
    assert t.delay == Emptied(s).delay;
  }

  lemma EmptiedKeeps(s: State)
    requires Wf(s)
    ensures Wf(Emptied(s))
  {
    SmallerBatches(Batches(s), Batches(Emptied(s)), s.minDelay, s.processed);
  }

  // ---------- How many are held ----------

  function Size(bs: seq<Batch>): nat {
    if bs == [] then 0 else |bs[0]| + Size(bs[1..])
  }

  function HeldSize(s: State): nat {
    |s.chan| + Size(Batches(s))
  }

  /** How many tasks the next tick times out. */
  function Expiring(s: State): nat {
    if |s.delay| < s.timeout then 0 else |Batches(s)[|s.delay|]|
  }

  lemma {:induction false} SizeSnoc(bs: seq<Batch>, b: Batch)
    ensures Size(bs + [b]) == Size(bs) + |b|
  {
    if bs == [] {
      assert ([] + [b])[1..] == [];
    } else {
      assert (bs + [b])[1..] == bs[1..] + [b];
      SizeSnoc(bs[1..], b);
    }
  }

  lemma {:induction false} SizeZero(bs: seq<Batch>)
    requires AllEmpty(bs)
    ensures Size(bs) == 0
  {
    if bs != [] { SizeZero(bs[1..]); }
  }

  lemma GotSize(s: State)
    requires Wf(s) && s.chan != []
    ensures HeldSize(Got(s)) == HeldSize(s)
  {
    GotKeeps(s);
    var q := s.chan[0].sn;
    assert Got(s).sent.Keys == s.sent.Keys + {q};
    assert |Got(s).sent| == |s.sent| + 1;
    assert Batches(s)[1..] == s.delay == Batches(Got(s))[1..];
  }

  lemma AdjustedSize(s: State)
    requires |s.delay| <= s.timeout
    ensures HeldSize(Adjusted(s)) + Expiring(s) == HeldSize(s)
  {
    AdjustedShift(s);
    var bs := Batches(s);
    if |s.delay| == s.timeout {
      assert bs == bs[..s.timeout] + [bs[s.timeout]];
      SizeSnoc(bs[..s.timeout], bs[s.timeout]);
    }
  }

  lemma EmptiedSize(s: State)
    ensures HeldSize(Emptied(s)) == |s.chan| && AllEmpty(Batches(Emptied(s)))
  {
    SizeZero(Batches(Emptied(s)));
  }

  lemma {:induction false} WithoutSizes(bs: seq<Batch>, cs: seq<Batch>, q: nat, k: nat)
    requires |cs| == |bs| && forall i :: 0 <= i < |bs| ==> cs[i] == bs[i] - {q}
    requires k < |bs| && forall i :: 0 <= i < |bs| ==> (q in bs[i] <==> i == k)
    ensures Size(bs) == Size(cs) + 1
  {
    if k == 0 {
      RemovedOne(bs[0], q);
      SameBatches(bs[1..], cs[1..], q);
    } else {
      SameBatches([bs[0]], [cs[0]], q);
      WithoutSizes(bs[1..], cs[1..], q, k - 1);
    }
  }

  lemma RemovedOne(b: Batch, q: nat)
    requires q in b
    ensures |b| == |b - {q}| + 1
  {
    assert b.Keys == (b - {q}).Keys + {q};
    assert |b| == |b.Keys| && |b - {q}| == |(b - {q}).Keys|;
  }

  lemma SameBatches(bs: seq<Batch>, cs: seq<Batch>, q: nat)
    requires |cs| == |bs| && forall i :: 0 <= i < |bs| ==> q !in bs[i] && cs[i] == bs[i] - {q}
    ensures cs == bs
  {
    forall i | 0 <= i < |bs| ensures cs[i] == bs[i] {
      assert bs[i] - {q} == bs[i];
    }
  }

  lemma WithoutShape(s: State, q: nat)
    ensures var bs, cs := Batches(s), Batches(Without(s, q));
            |cs| == |bs| && forall i :: 0 <= i < |bs| ==> cs[i] == bs[i] - {q}
  {
  }

  /** Taking a task that is there takes exactly one task out ... */
  lemma TakenOnce(s: State, q: nat)
    requires Wf(s) && Find(Batches(s), q).Some?
    ensures HeldSize(s) == HeldSize(Without(s, q)) + 1
  {
    var k := TheBatch(s, q);
    WithoutShape(s, q);
    WithoutSizes(Batches(s), Batches(Without(s, q)), q, k);
  }

  /** ... and exactly one number. */
  lemma TakenHeld(s: State, q: nat)
    requires Wf(s) && Find(Batches(s), q).Some?
    ensures Held(s) == Held(Without(s, q)) + multiset{q}
  {
    var k := TheBatch(s, q);
    WithoutShape(s, q);
    WithoutBatchKeys(Batches(s), Batches(Without(s, q)), q, k);
    Shuffle(ChannelKeys(s.chan), BatchKeys(Batches(Without(s, q))), multiset{q});
  }

  lemma {:induction false} ChannelKeysFind(chan: seq<Item>, q: nat)
    ensures q in ChannelKeys(chan) <==> FindChannel(chan, q).Some?
  {
    if chan != [] { ChannelKeysFind(chan[1..], q); }
  }

  lemma {:induction false} BatchKeysFind(bs: seq<Batch>, q: nat)
    ensures q in BatchKeys(bs) <==> Find(bs, q).Some?
  {
    if bs != [] { BatchKeysFind(bs[1..], q); }
  }

  /** The held sequence numbers are the domain of the map. */
  lemma HeldLookup(s: State, q: nat)
    ensures q in Held(s) <==> Lookup(s, q).Some?
  {
    ChannelKeysFind(s.chan, q);
    BatchKeysFind(Batches(s), q);
  }

  // ---------- The exact timeout ----------

  datatype Event = Reg(it: Item) | Pop | Tick | Take(q: nat)

  function Apply(s: State, e: Event): State {
    match e
    case Reg(it) => Register(s, it)
    case Pop => if s.chan == [] then s else Got(s)
    case Tick => Adjusted(s)
    case Take(q) => Without(s, q)
  }

  /** A sequential sender registers growing numbers; a lookup only happens once its number
      has been passed by the drain. */
  ghost predicate Legal(s: State, e: Event) {
    match e
    case Reg(it) => s.processed < it.sn && forall i :: 0 <= i < |s.chan| ==> s.chan[i].sn < it.sn
    case Take(q) => q <= s.processed
    case _ => true
  }

  function Run(s: State, es: seq<Event>): State
    decreases |es|
  {
    if es == [] then s else Run(Apply(s, es[0]), es[1..])
  }

  ghost predicate LegalRun(s: State, es: seq<Event>)
    decreases |es|
  {
    es == [] || (Legal(s, es[0]) && LegalRun(Apply(s, es[0]), es[1..]))
  }

  function Ticks(es: seq<Event>): nat {
    if es == [] then 0 else (if es[0].Tick? then 1 else 0) + Ticks(es[1..])
  }

  lemma ApplyKeeps(s: State, e: Event)
    requires Wf(s) && Legal(s, e)
    ensures Wf(Apply(s, e)) && s.processed <= Apply(s, e).processed
  {
    match e
    case Reg(it) => RegisterKeeps(s, it);
    case Pop => if s.chan != [] { GotKeeps(s); }
    case Tick => AdjustedKeeps(s);
    case Take(q) => WithoutKeeps(s, q);
  }

  /** A number the drain has passed and no batch holds never comes back. */
  lemma {:induction false} GoneForGood(s: State, q: nat, es: seq<Event>)
    requires Wf(s) && LegalRun(s, es)
    requires q <= s.processed && forall k :: 0 <= k < |Batches(s)| ==> q !in Batches(s)[k]
    ensures Run(s, es).timedOut[q] == s.timedOut[q]
    ensures q <= Run(s, es).processed && forall k :: 0 <= k < |Batches(Run(s, es))| ==> q !in Batches(Run(s, es))[k]
    decreases |es|
  {
    if es != [] {
      var t := Apply(s, es[0]);
      ApplyKeeps(s, es[0]);
      assert t.timedOut[q] == s.timedOut[q] && forall k :: 0 <= k < |Batches(t)| ==> q !in Batches(t)[k] by {
        GoneStep(s, q, es[0]);
      }
      GoneForGood(t, q, es[1..]);
    }
  }

  lemma GoneStep(s: State, q: nat, e: Event)
    requires Wf(s) && Legal(s, e)
    requires q <= s.processed && forall k :: 0 <= k < |Batches(s)| ==> q !in Batches(s)[k]
    ensures Apply(s, e).timedOut[q] == s.timedOut[q]
    ensures forall k :: 0 <= k < |Batches(Apply(s, e))| ==> q !in Batches(Apply(s, e))[k]
  {
    var bs, cs := Batches(s), Batches(Apply(s, e));
    match e
    case Reg(it) => assert cs == bs;
    case Pop => GoneAtPop(s, q);
    case Tick => AdjustedShift(s); assert q !in bs[|bs| - 1];
    case Take(r) => WithoutShape(s, r);
  }

  lemma GoneAtPop(s: State, q: nat)
    requires Wf(s) && q <= s.processed && forall k :: 0 <= k < |Batches(s)| ==> q !in Batches(s)[k]
    ensures forall k :: 0 <= k < |Batches(Apply(s, Pop))| ==> q !in Batches(Apply(s, Pop))[k]
  {
    var bs, t := Batches(s), Apply(s, Pop);
    assert q !in bs[0];
    forall k | 1 <= k < |Batches(t)| ensures q !in Batches(t)[k] {
      assert Batches(t)[k] == bs[k];
    }
  }

  /** One event moves a waiting task to the next age exactly when it is a tick. */
  lemma AgeStep(s: State, q: nat, k: nat, e: Event)
    requires Wf(s) && Legal(s, e) && e != Take(q)
    requires k < |Batches(s)| && q in Batches(s)[k]
    ensures var t, k' := Apply(s, e), if e.Tick? then k + 1 else k;
            if k' <= s.timeout
            then k' < |Batches(t)| && q in Batches(t)[k'] && t.timedOut[q] == s.timedOut[q]
            else t.timedOut[q] == s.timedOut[q] + 1 && forall i :: 0 <= i < |Batches(t)| ==> q !in Batches(t)[i]
  {
    var bs, cs := Batches(s), Batches(Apply(s, e));
    match e
    case Reg(it) => assert cs == bs;
    case Pop => assert forall i :: 1 <= i < |cs| ==> cs[i] == bs[i];
    case Take(r) => WithoutShape(s, r);
    case Tick =>
      AdjustedShift(s);
      var last := bs[|bs| - 1];
      if k == s.timeout {
        forall i | 1 <= i < |cs| ensures q !in cs[i] { assert Above(bs[i - 1], last); }
      } else if k < |bs| - 1 {
        assert Above(bs[k], last);
      }
  }

  lemma ApplyTimeout(s: State, e: Event)
    ensures Apply(s, e).timeout == s.timeout
  {
  }

  /** An unanswered task of age `k` gets Timeout exactly once, at the tick that makes it older
      than the timeout and at no other; for `k == 0`, a task just drained from the channel, that is
      the (timeout + 1)-th tick. */
  lemma {:induction false} ExactTimeout(s: State, q: nat, k: nat, es: seq<Event>)
    requires Wf(s) && LegalRun(s, es) && Take(q) !in es
    requires k < |Batches(s)| && q in Batches(s)[k]
    ensures Run(s, es).timedOut[q] == s.timedOut[q] + if k + Ticks(es) > s.timeout then 1 else 0
    ensures k + Ticks(es) <= s.timeout ==>
            k + Ticks(es) < |Batches(Run(s, es))| && q in Batches(Run(s, es))[k + Ticks(es)]
    decreases |es|
  {
    if es != [] {
      var t, k' := Apply(s, es[0]), if es[0].Tick? then k + 1 else k;
      ApplyKeeps(s, es[0]);
      ApplyTimeout(s, es[0]);
      AgeStep(s, q, k, es[0]);
      if k' <= s.timeout {
        ExactTimeout(t, q, k', es[1..]);
      } else {
        assert Keyed(Batches(s)[k], s.minDelay, s.processed);
        GoneForGood(t, q, es[1..]);
      }
    } else {
      assert k <= s.timeout;
    }
  }
}
