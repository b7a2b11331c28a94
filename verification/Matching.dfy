/** The reader of responses together with the registry of sent requests: the map of waiting tasks that
    the reader works on is what the registry stands for. */
module Matching {
  import opened Prelude
  import opened Wire
  import opened Frames
  import opened BufIo
  import opened TcpClient
  import Registry
  import Timer

  /** The task behind a registered item; `blobs` says which tasks can take a blob. */
  function TaskOf(blobs: nat -> bool, it: Option<Registry.Item>): Option<ClientTask> {
    if it.Some? then Some(ClientTask(it.value.id, blobs(it.value.id))) else None
  }

  /** The waiting tasks are the registry's lookup. */
  ghost predicate Mirrors(waiting: map<nat, ClientTask>, reg: Registry.State, blobs: nat -> bool) {
    forall q: nat :: (if q in waiting then Some(waiting[q]) else None) == TaskOf(blobs, Registry.Lookup(reg, q))
  }

  /** A number the lookup does not wait for: it, or a larger one, has been registered. */
  predicate Settled(reg: Registry.State, q: nat) {
    q <= Registry.Drained(reg).processed
  }

  lemma {:induction false} FindChannelSnoc(chan: seq<Registry.Item>, it: Registry.Item, q: nat)
    ensures Registry.FindChannel(chan + [it], q)
            == if Registry.FindChannel(chan, q).Some? then Registry.FindChannel(chan, q)
               else if q == it.sn then Some(it) else None
  {
    if chan != [] {
      assert (chan + [it])[1..] == chan[1..] + [it];
      FindChannelSnoc(chan[1..], it, q);
    } else {
      assert chan + [it] == [it];
    }
  }

  /** Registering a task adds it to the waiting ones. */
  lemma RegisterMirrors(waiting: map<nat, ClientTask>, reg: Registry.State, blobs: nat -> bool, it: Registry.Item)
    requires Mirrors(waiting, reg, blobs) && Registry.Lookup(reg, it.sn).None?
    ensures Mirrors(waiting[it.sn := TaskOf(blobs, Some(it)).value], Registry.Register(reg, it), blobs)
  {
    var more, t := waiting[it.sn := TaskOf(blobs, Some(it)).value], Registry.Register(reg, it);
    forall q: nat ensures (if q in more then Some(more[q]) else None) == TaskOf(blobs, Registry.Lookup(t, q)) {
      FindChannelSnoc(reg.chan, it, q);
      assert Registry.Batches(t) == Registry.Batches(reg);
      assert (if q in waiting then Some(waiting[q]) else None) == TaskOf(blobs, Registry.Lookup(reg, q));
    }
  }

  /** A tick takes exactly the timed-out tasks from the waiting ones. */
  lemma TickMirrors(waiting: map<nat, ClientTask>, reg: Registry.State, blobs: nat -> bool)
    requires Mirrors(waiting, reg, blobs) && Registry.Wf(reg)
    ensures Mirrors(map q | q in waiting && !Registry.AtTimeout(reg, q) :: waiting[q], Registry.Adjusted(reg), blobs)
  {
    var less := map q | q in waiting && !Registry.AtTimeout(reg, q) :: waiting[q];
    forall q: nat
      ensures (if q in less then Some(less[q]) else None) == TaskOf(blobs, Registry.Lookup(Registry.Adjusted(reg), q))
    {
      Registry.AdjustedLookup(reg, q);
      assert (if q in waiting then Some(waiting[q]) else None) == TaskOf(blobs, Registry.Lookup(reg, q));
    }
  }

  /** One lookup on the registry is the removal on the map, unless registration was stopped. */
  method Take(timer: Timer.ClientTaskTimer, q: nat, ghost waiting: map<nat, ClientTask>, blobs: nat -> bool)
    returns (r: Registry.Poll<Option<ClientTask>>)
    requires Registry.Wf(timer.View()) && !timer.regStopped && Mirrors(waiting, timer.View(), blobs)
    modifies timer
    ensures Registry.Wf(timer.View()) && !timer.regStopped
    ensures r.Ready? ==> r.value == if q in waiting then Some(waiting[q]) else None
    ensures r.Ready? ==> Mirrors(waiting - {q}, timer.View(), blobs)
    ensures r.Pending? ==> q !in waiting && Mirrors(waiting, timer.View(), blobs)
    ensures r.Pending? <==> !Settled(old(timer.View()), q)
    ensures Registry.Drained(timer.View()).processed == old(Registry.Drained(timer.View()).processed)
  {
    ghost var s := timer.View();
    var p := timer.TakeTask(q, true);
    if p.Pending? { return Registry.Pending; }
    r := Registry.Ready(TaskOf(blobs, p.value));
    ghost var less := waiting - {q};
    forall x: nat
      ensures (if x in less then Some(less[x]) else None) == TaskOf(blobs, Registry.Lookup(timer.View(), x))
    {
      assert (if x in waiting then Some(waiting[x]) else None) == TaskOf(blobs, Registry.Lookup(s, x));
    }
  }

  /** The registry is in order and registration goes on, and the waiting tasks are its lookup. */
  ghost predicate InStep(c: Connection, timer: Timer.ClientTaskTimer, blobs: nat -> bool)
    reads c, timer
  {
    Registry.Wf(timer.View()) && !timer.regStopped && Mirrors(c.waiting, timer.View(), blobs)
  }

  /** The lookup in the registry and the body behind a header. */
  method BodyMatched(c: Connection, timer: Timer.ClientTaskTimer, blobs: nat -> bool, h: RespHead)
    returns (r: ReadResult)
    requires c.Valid() && Calm(c.stream.inner.rscript) && RespHeadFits(h) && Complete(h, c.stream.Incoming())
    requires h.seqNo in c.waiting || BodyLen(h) <= I32_MAX
    requires InStep(c, timer, blobs) && Settled(timer.View(), h.seqNo)
    modifies timer, c`log, c`waiting, c.stream.rd, c.stream.rd.buf, c.stream.inner`incoming, c.stream.inner`rscript
    ensures c.Valid() && Calm(c.stream.inner.rscript) && r == Consumed
    ensures c.stream.Incoming() == old(c.stream.Incoming())[BodyLen(h)..]
    ensures (c.waiting, c.log) == Deliver(c.decodes, old(c.waiting), old(c.log), BodyOf(h, old(c.stream.Incoming())))
    ensures InStep(c, timer, blobs)
    ensures Registry.Drained(timer.View()).processed == old(Registry.Drained(timer.View()).processed)
  {
    var task := Take(timer, h.seqNo, c.waiting, blobs);
    assert task.value == if h.seqNo in c.waiting then Some(c.waiting[h.seqNo]) else None;
    r := c.RecvBody(h);
  }

  /** read_resp as it runs: header, lookup in the registry, body. It answers the task the registry
      gives, and leaves reader and registry in step. */
  method ReadMatched(c: Connection, timer: Timer.ClientTaskTimer, blobs: nat -> bool, ghost resp: Response,
                     ghost rest: Bytes)
    returns (r: ReadResult)
    requires c.Valid() && Calm(c.stream.inner.rscript) && Begins(c.stream.Incoming(), resp, rest)
    requires resp.seqNo in c.waiting || |ResponseBody(resp)| <= I32_MAX
    requires InStep(c, timer, blobs) && Settled(timer.View(), resp.seqNo)
    modifies timer, c`log, c`waiting, c.stream.rd, c.stream.rd.buf, c.stream.inner`incoming, c.stream.inner`rscript
    ensures c.Valid() && Calm(c.stream.inner.rscript) && r == Consumed && c.stream.Incoming() == rest
    ensures (c.waiting, c.log) == Deliver(c.decodes, old(c.waiting), old(c.log), resp)
    ensures InStep(c, timer, blobs)
    ensures Registry.Drained(timer.View()).processed == old(Registry.Drained(timer.View()).processed)
  {
    ResponseParses(resp, rest);
    var g := c.ReadHead(false, 0);
    Halves(ResponseBody(resp), rest);
    r := BodyMatched(c, timer, blobs, g.head);
  }

  /** The k-th response is next on the wire, with reader and registry in step. */
  ghost predicate AtResponse(c: Connection, timer: Timer.ClientTaskTimer, blobs: nat -> bool, rs: seq<Response>, k: nat,
                             rest: Bytes, final: (map<nat, ClientTask>, seq<Outcome>), last: nat)
    requires ResponsesOk(rs)
    reads c, timer, c.stream, c.stream.rd, c.stream.wr, c.stream.rd.buf, c.stream.inner
  {
    && k <= |rs| && c.Valid() && Calm(c.stream.inner.rscript) && c.stream.Incoming() == WireAt(rs, k, rest)
    && NextIs(c.decodes, c.waiting, c.log, rs, k, final)
    && InStep(c, timer, blobs) && Registry.Drained(timer.View()).processed == last
  }

  method NextMatched(c: Connection, timer: Timer.ClientTaskTimer, blobs: nat -> bool, ghost rs: seq<Response>,
                     ghost k: nat, ghost rest: Bytes, ghost final: (map<nat, ClientTask>, seq<Outcome>),
                     ghost last: nat)
    returns (r: ReadResult)
    requires ResponsesOk(rs) && k < |rs| && rs[k].seqNo <= last
    requires AtResponse(c, timer, blobs, rs, k, rest, final, last)
    modifies timer, c`log, c`waiting, c.stream.rd, c.stream.rd.buf, c.stream.inner`incoming, c.stream.inner`rscript
    ensures r == Consumed && AtResponse(c, timer, blobs, rs, k + 1, rest, final, last)
  {
    NextStep(c.decodes, c.waiting, c.log, rs, k, rest, final);
    r := ReadMatched(c, timer, blobs, rs[k], WireAt(rs, k + 1, rest));
  }

  /** Frame sync with the registry itself: any responses to registered numbers, in any order and cut up
      in any way, are read to the next boundary, each answers the task the registry holds for it, and
      what is left waiting is what the registry still holds. */
  method ReadAllMatched(c: Connection, timer: Timer.ClientTaskTimer, blobs: nat -> bool, n: nat,
                        ghost rs: seq<Response>, ghost rest: Bytes)
    returns (r: ReadResult)
    requires c.Valid() && n == |rs| && Calm(c.stream.inner.rscript)
    requires ResponsesOk(rs) && Readable(c.waiting, rs)
    requires c.stream.Incoming() == ResponseStream(rs) + rest
    requires InStep(c, timer, blobs)
    requires forall i :: 0 <= i < |rs| ==> Settled(timer.View(), rs[i].seqNo)
    modifies timer, c`log, c`waiting, c.stream.rd, c.stream.rd.buf, c.stream.inner`incoming, c.stream.inner`rscript
    ensures c.Valid() && r == Consumed && c.stream.Incoming() == rest
    ensures (c.waiting, c.log) == DeliverAll(c.decodes, old(c.waiting), old(c.log), rs)
    ensures InStep(c, timer, blobs)
  {
    r := Consumed;
    ghost var final := DeliverAll(c.decodes, c.waiting, c.log, rs);
    ghost var last := Registry.Drained(timer.View()).processed;
    assert rs[0..] == rs;
    var k := 0;
    while k < n
      invariant k <= n && r == Consumed && AtResponse(c, timer, blobs, rs, k, rest, final, last)
    {
      r := NextMatched(c, timer, blobs, rs, k, rest, final, last);
      k := k + 1;
    }
    assert rs[k..] == [] && WireAt(rs, k, rest) == rest;
  }
}
