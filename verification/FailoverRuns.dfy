/** Where a task goes, what its caller is told in the end, and how fairly pools are chosen, over every
    run of the failover pool. */
module FailoverRuns {
  import opened Prelude
  import opened Errors
  import opened Failover

  ghost predicate SomeHealthy(healthy: seq<bool>) {
    exists p :: 0 <= p < |healthy| && healthy[p]
  }

  /** Where a selection that does not count on from an earlier one begins. */
  function FreshSeed(s: State): nat {
    if s.roundRobin then s.rr else 0
  }

  /** A submitted task is sent to the first healthy pool in cyclic order from the round-robin counter,
      or from the first pool; with no configuration or no healthy pool the caller is told Unreachable. */
  lemma SubmitGoes(s: State, id: nat, healthy: seq<bool>)
    requires Enabled(s, Submit(id, healthy))
    ensures var e := Next(s, Submit(id, healthy)).tasks[id];
            if s.current.Some? && SomeHealthy(healthy) then
              && e.stage == Flying && e.dones == 0 && e.task.retry == 0 && e.task.ver == s.current.value.ver
              && FirstHealthy(healthy, FreshSeed(s), e.task.lastIndex)
              && e.sent == [s.current.value.pools[e.task.lastIndex % |healthy|]]
            else e.stage == Finished && e.dones == 1 && e.sent == [] && e.task.reply == Some(Failure(Unreachable))
  {
    ChosenExact(healthy, Seed(s.roundRobin, s.rr, None));
  }

  /** A retry under a configuration the task has not seen starts afresh. */
  lemma RetryStartsAfresh(s: State, id: nat, healthy: seq<bool>)
    requires Enabled(s, Retry(id, healthy, true)) && SomeHealthy(healthy)
    requires s.current.Some? && s.current.value.ver != s.tasks[id].task.ver
    ensures var e, e' := s.tasks[id], Next(s, Retry(id, healthy, true)).tasks[id];
            && e'.stage == Flying && e'.dones == e.dones && e'.task.retry == e.task.retry
            && e'.task.ver == s.current.value.ver && FirstHealthy(healthy, FreshSeed(s), e'.task.lastIndex)
            && e'.sent == e.sent + [s.current.value.pools[e'.task.lastIndex % |healthy|]]
  {
    ChosenExact(healthy, Seed(s.roundRobin, s.rr, None));
  }

  /** A retry that finds no pool, no configuration or a dropped failover pool tells the caller the error
      that made it retry. */
  lemma RetryGivesUp(s: State, id: nat, healthy: seq<bool>, alive: bool)
    requires Reachable(s) && Enabled(s, Retry(id, healthy, alive))
    requires !alive || s.current.None? || !SomeHealthy(healthy)
    ensures var e, e' := s.tasks[id], Next(s, Retry(id, healthy, alive)).tasks[id];
            && e'.stage == Finished && e'.dones == 1 && e'.sent == e.sent
            && e'.task.reply == e.task.reply && e.task.reply.Some? && Transient(e.task.reply.value)
  {
    ReachableInv(s);
    assert EntryOk(s, s.tasks[id]);
    if s.current.Some? { ChosenExact(healthy, Seed(s.roundRobin, s.rr, Last(s, s.tasks[id].task))); }
  }

  /** An answer sends the task round again exactly if the error is transient, a retry is left and the
      retry channel is open; otherwise it ends the task. Either way it is the answer on record. */
  lemma AnswerExact(s: State, id: nat, reply: Reply, open: bool)
    requires Enabled(s, Answer(id, reply, open))
    ensures var e, e' := s.tasks[id], Next(s, Answer(id, reply, open)).tasks[id];
            && e'.stage == (if Transient(reply) && e.task.retry < s.limit && open then Queued else Finished)
            && e'.sent == e.sent && e'.task.reply == Some(reply)
            && e'.dones == e.dones + (if e'.stage == Finished then 1 else 0)
  {
  }

  /** An address update that has been stored is what selections see, under a version above all others. */
  lemma UpdateTakesEffect(s: State, pools: seq<nat>)
    requires Reachable(s)
    ensures var t := Next(Next(s, Build(pools)), Store(|s.built|));
            && t.current == Some(Config(s.counter + 1, pools)) && t.built == s.built && t.tasks == s.tasks
            && forall v :: v in s.made ==> v < t.current.value.ver
  {
    ReachableInv(s);
    var n := Next(s, Build(pools));
    assert n.built[..|s.built|] + n.built[|s.built| + 1..] == s.built;
  }

  /** Once the failover pool is dropped, a submitted task is told Unreachable. */
  lemma DroppedPoolIsUnreachable(s: State, id: nat, healthy: seq<bool>)
    requires Enabled(s, Submit(id, healthy))
    ensures var n := Next(s, DropPool);
            && Enabled(n, Submit(id, healthy))
            && Next(n, Submit(id, healthy)).tasks[id].task.reply == Some(Failure(Unreachable))
  {
    SubmitGoes(Next(s, DropPool), id, healthy);
  }

  // ---------- The last answer ----------

  /** The reply of the last answer to `id`, `before` standing for earlier ones. */
  function LastAnswer(before: Option<Reply>, acts: seq<Action>, id: nat): Option<Reply>
    decreases |acts|
  {
    if acts == [] then before
    else LastAnswer(if acts[0].Answer? && acts[0].id == id then Some(acts[0].reply) else before, acts[1..], id)
  }

  ghost predicate OnRecord(s: State, id: nat, last: Option<Reply>) {
    if id !in s.tasks then last.None?
    else
      var e := s.tasks[id];
      if e.sent == [] then e.stage == Finished && e.task.reply == Some(Failure(Unreachable)) && last.None?
      else e.task.reply == last
  }

  lemma RecordStep(s: State, a: Action, id: nat, last: Option<Reply>)
    requires OnRecord(s, id, last) && Enabled(s, a)
    ensures OnRecord(Next(s, a), id, if a.Answer? && a.id == id then Some(a.reply) else last)
  {
    match a
    case Submit(i, healthy) => SubmitGoes(s, i, healthy);
    case Answer(i, reply, open) => AnswerExact(s, i, reply, open);
    case Retry(i, healthy, alive) =>
    case Build(_) =>
    case Store(_) =>
    case DropPool =>
  }

  lemma {:induction false} RecordRun(s: State, acts: seq<Action>, t: State, id: nat, last: Option<Reply>)
    requires OnRecord(s, id, last) && Path(s, acts, t)
    ensures OnRecord(t, id, LastAnswer(last, acts, id))
    decreases |acts|
  {
    if acts != [] {
      var a := acts[0];
      RecordStep(s, a, id, last);
      RecordRun(Next(s, a), acts[1..], t, id, if a.Answer? && a.id == id then Some(a.reply) else last);
    }
  }

  /** The caller is told the last answer its task got, and Unreachable exactly if it was never sent or
      that was the last answer. */
  lemma ToldTheLast(limit: nat, roundRobin: bool, pools: seq<nat>, acts: seq<Action>, t: State, id: nat)
    requires Path(Init(limit, roundRobin, pools), acts, t) && id in t.tasks && t.tasks[id].stage == Finished
    ensures t.tasks[id].task.reply
            == if t.tasks[id].sent == [] then Some(Failure(Unreachable)) else LastAnswer(None, acts, id)
  {
    RecordRun(Init(limit, roundRobin, pools), acts, t, id, None);
  }

  // ---------- Fairness over runs ----------

  /** The step makes a selection that does not count on from an earlier one. */
  predicate SelectsAfresh(s: State, a: Action)
    requires Enabled(s, a)
  {
    && s.current.Some? && |s.current.value.pools| > 0
    && (a.Submit? || (a.Retry? && a.alive && s.current.value.ver != s.tasks[a.id].task.ver))
  }

  /** The indices such selections choose, in order. */
  ghost function FreshPicks(s: State, acts: seq<Action>, t: State): seq<nat>
    requires Path(s, acts, t)
    decreases |acts|
  {
    if acts == [] then [] else
    var n := Next(s, acts[0]);
    (if SelectsAfresh(s, acts[0]) then [n.tasks[acts[0].id].task.lastIndex] else []) + FreshPicks(n, acts[1..], t)
  }

  /** No configuration is stored or dropped and every pool is healthy at every selection. */
  predicate Steady(acts: seq<Action>) {
    forall i :: 0 <= i < |acts| ==> SteadyStep(acts[i])
  }

  predicate SteadyStep(a: Action) {
    && !a.Store? && !a.DropPool?
    && (a.Submit? || a.Retry? ==> forall p :: 0 <= p < |a.healthy| ==> a.healthy[p])
  }

  lemma SteadyPick(s: State, a: Action)
    requires Enabled(s, a) && SteadyStep(a) && s.roundRobin && s.current.Some? && |s.current.value.pools| > 0
    ensures var n := Next(s, a);
            && n.roundRobin && n.current == s.current
            && n.rr == s.rr + (if SelectsAfresh(s, a) then 1 else 0)
            && (SelectsAfresh(s, a) ==> n.tasks[a.id].task.lastIndex == s.rr)
  {
    if SelectsAfresh(s, a) {
      var l := |a.healthy|;
      assert a.healthy[s.rr % l] && a.healthy[0];
      if a.Submit? {
        SubmitGoes(s, a.id, a.healthy);
      } else {
        RetryStartsAfresh(s, a.id, a.healthy);
      }
    }
  }

  lemma {:induction false} PicksCount(s: State, acts: seq<Action>, t: State)
    requires Path(s, acts, t) && Steady(acts) && s.roundRobin && s.current.Some? && |s.current.value.pools| > 0
    ensures var picks := FreshPicks(s, acts, t);
            t.rr == s.rr + |picks| && forall i :: 0 <= i < |picks| ==> picks[i] == s.rr + i
    decreases |acts|
  {
    if acts != [] {
      assert SteadyStep(acts[0]);
      SteadyPick(s, acts[0]);
      PicksCount(Next(s, acts[0]), acts[1..], t);
    }
  }

  lemma {:induction false} PicksAreTurns(picks: seq<nat>, rr: nat, l: nat, p: nat)
    requires l > 0 && forall i :: 0 <= i < |picks| ==> picks[i] == rr + i
    ensures Picks(picks, l, p) == Turns(rr, |picks|, l, p)
  {
    if picks != [] {
      var front := picks[..|picks| - 1];
      PicksAreTurns(front, rr, l, p);
      OneMoreTurn(front, rr, l, p);
      assert picks == front + [rr + |front|];
    }
  }

  /** Round robin is fair over runs: between two configurations, while every pool is healthy, the
      selections made afresh give each pool the floor or the ceiling of its share, however they
      interleave with answers and retries that count on. */
  lemma RoundRobinFair(s: State, acts: seq<Action>, t: State, p: nat)
    requires Path(s, acts, t) && Steady(acts) && s.roundRobin && s.current.Some? && p < |s.current.value.pools|
    ensures var picks, l := FreshPicks(s, acts, t), |s.current.value.pools|;
            |picks| / l <= Picks(picks, l, p) <= (|picks| + l - 1) / l
  {
    var picks, l := FreshPicks(s, acts, t), |s.current.value.pools|;
    PicksCount(s, acts, t);
    PicksAreTurns(picks, s.rr, l, p);
    Fair(s.rr, |picks|, l, p);
  }
}
