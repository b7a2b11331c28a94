/** A server connection: one reader, any number of services answering, one writer. */
module Server {
  import opened Prelude
  import opened Errors
  import opened Wire
  import opened Frames
  import opened BufIo
  import TcpClient
  import TcpServer

  // ---------- Where a request goes ----------

  const DOT: byte := 46

  /** `str::split_once('.')`. */
  function SplitOnce(text: Bytes): (r: Option<(Bytes, Bytes)>)
    ensures r.None? <==> DOT !in text
    ensures r.Some? ==> text == r.value.0 + [DOT] + r.value.1 && DOT !in r.value.0
  {
    if text == [] then None
    else if text[0] == DOT then Some(([], text[1..]))
    else
      var r := SplitOnce(text[1..]);
      assert text == [text[0]] + text[1..];
      if r.None? then None else Some(([text[0]] + r.value.0, r.value.1))
  }

  /** "service.method" is dispatched to that service and method if the service has no dot. */
  lemma {:induction false} SplitJoined(service: Bytes, name: Bytes)
    requires DOT !in service
    ensures SplitOnce(service + [DOT] + name) == Some((service, name))
  {
    var text := service + [DOT] + name;
    if service != [] {
      assert text[1..] == service[1..] + [DOT] + name;
      SplitJoined(service[1..], name);
      assert service == [service[0]] + service[1..];
    } else {
      assert text[1..] == name;
    }
  }

  datatype Route = Ping | Dispatched(service: Bytes, name: Bytes) | Malformed

  function RouteOf(q: SvrReq): Route {
    match q.action
    case Num(n) => if n == PING_ACTION && q.msg == [] then Ping else Malformed
    case Str(text) => var s := SplitOnce(text); if s.Some? then Dispatched(s.value.0, s.value.1) else Malformed
  }

  // ---------- The interleaved connection ----------

  /** A response in the channel; `req` is the number of the request it answers. */
  datatype Item = Item(req: nat, seqNo: nat, msg: Bytes, reply: TaskReply)

  datatype Reader = Ready | Replying(item: Item) | Serving(req: nat) | Gone

  datatype Writer = Waiting | Writing(item: Item) | Draining | Flushing | Closing | Done(shut: bool) | Dead

  /** `inline` says that the reader waits for the service; `sent` is everything that entered the
      channel and `at` where the response to a request is in it. */
  datatype State = State(
    inline: bool, reqs: seq<SvrReq>, next: nat, reader: Reader, outstanding: set<nat>,
    queue: seq<Item>, sent: seq<Item>, at: map<nat, nat>,
    writer: Writer, written: seq<Item>, flushed: nat)

  function Init(inline: bool, reqs: seq<SvrReq>): State {
    State(inline, reqs, 0, Ready, {}, [], [], map[], Waiting, [], 0)
  }

  datatype Action =
    | Read | SendReply | Answer(req: nat, msg: Bytes, reply: TaskReply) | Hangup
    | Recv | Write(ok: bool) | TryRecv | Flush(ok: bool) | Close | Shut(ok: bool)

  predicate Listening(w: Writer) {
    !w.Done? && !w.Dead?
  }

  predicate Enabled(s: State, a: Action) {
    match a
    case Read => s.reader == Ready && s.next < |s.reqs|
    case SendReply => s.reader.Replying?
    case Answer(r, _, _) => r in s.outstanding && r < |s.reqs|
    case Hangup => s.reader == Ready
    case Recv => s.writer == Waiting && s.queue != []
    case Write(_) => s.writer.Writing?
    case TryRecv => s.writer == Draining
    case Flush(_) => s.writer == Flushing
    case Close => s.writer == Waiting && s.queue == [] && s.reader == Gone && s.outstanding == {}
    case Shut(_) => s.writer == Closing
  }

  /** A send into the channel; nothing happens once the writer is gone. */
  function Enqueue(s: State, i: Item): State {
    if Listening(s.writer) then s.(queue := s.queue + [i], sent := s.sent + [i], at := s.at[i.req := |s.sent|]) else s
  }

  function ReadNext(s: State): State
    requires Enabled(s, Read)
  {
    var q, n := s.reqs[s.next], s.(next := s.next + 1);
    match RouteOf(q)
    case Ping => n.(reader := Replying(Item(s.next, q.seqNo, [], Fine(None))))
    case Malformed => n.(reader := Replying(Item(s.next, q.seqNo, [], TaskReply.Broken(Rpc(Decode)))))
    case Dispatched(_, _) =>
      n.(outstanding := s.outstanding + {s.next}, reader := if s.inline then Serving(s.next) else Ready)
  }

  function Next(s: State, a: Action): State
    requires Enabled(s, a)
  {
    match a
    case Read => ReadNext(s)
    case SendReply => Enqueue(s, s.reader.item).(reader := if Listening(s.writer) then Ready else Gone)
    case Answer(r, msg, reply) =>
      Enqueue(s, Item(r, s.reqs[r].seqNo, msg, reply)).(
        outstanding := s.outstanding - {r}, reader := if s.reader == Serving(r) then Ready else s.reader)
    case Hangup => s.(reader := Gone)
    case Recv => s.(writer := Writing(s.queue[0]), queue := s.queue[1..])
    case Write(ok) =>
      if ok then s.(written := s.written + [s.writer.item], writer := Draining) else s.(writer := Dead)
    case TryRecv =>
      if s.queue == [] then s.(writer := Flushing) else s.(writer := Writing(s.queue[0]), queue := s.queue[1..])
    case Flush(ok) => if ok then s.(flushed := |s.written|, writer := Waiting) else s.(writer := Dead)
    case Close => s.(writer := Closing)
    case Shut(ok) => if ok then s.(flushed := |s.written|, writer := Done(true)) else s.(writer := Done(false))
  }

  ghost predicate Path(s: State, acts: seq<Action>, t: State)
    decreases |acts|
  {
    if acts == [] then s == t else Enabled(s, acts[0]) && Path(Next(s, acts[0]), acts[1..], t)
  }

  ghost predicate Reachable(s: State) {
    exists inline: bool, reqs: seq<SvrReq>, acts: seq<Action> :: Path(Init(inline, reqs), acts, s)
  }

  // ---------- The channel and the writer ----------

  function Hand(w: Writer): seq<Item> {
    if w.Writing? then [w.item] else []
  }

  /** Nothing is lost, doubled or reordered between the channel and the wire. */
  ghost predicate Flow(s: State) {
    && s.written <= s.sent && s.flushed <= |s.written|
    && (!s.writer.Dead? ==> s.sent == s.written + Hand(s.writer) + s.queue)
    && (s.writer == Waiting || s.writer == Closing || s.writer == Done(true) ==> s.flushed == |s.written|)
    && (s.writer == Closing || s.writer.Done? ==> s.queue == [] && s.reader == Gone && s.outstanding == {})
  }

  lemma EnqueueFlow(s: State, i: Item)
    requires Flow(s) && s.writer != Closing
    ensures var n := Enqueue(s, i);
            n.written <= n.sent && (!n.writer.Dead? ==> n.sent == n.written + Hand(n.writer) + n.queue)
  {
    var before := s.written + Hand(s.writer);
    assert before + (s.queue + [i]) == before + s.queue + [i];
  }

  predicate WriterStep(a: Action) {
    a.Recv? || a.Write? || a.TryRecv? || a.Flush? || a.Close? || a.Shut?
  }

  lemma ReaderFlow(s: State, a: Action)
    requires Flow(s) && Enabled(s, a) && !WriterStep(a)
    ensures Flow(Next(s, a))
  {
    if a.SendReply? {
      EnqueueFlow(s, s.reader.item);
    } else if a.Answer? {
      EnqueueFlow(s, Item(a.req, s.reqs[a.req].seqNo, a.msg, a.reply));
    }
  }

  lemma TakeFlow(s: State)
    requires Flow(s) && s.queue != [] && (s.writer == Waiting || s.writer == Draining)
    ensures Flow(s.(writer := Writing(s.queue[0]), queue := s.queue[1..]))
  {
    assert s.written + [] + s.queue == s.written + [s.queue[0]] + s.queue[1..];
  }

  lemma WriteFlow(s: State)
    requires Flow(s) && s.writer.Writing?
    ensures Flow(s.(written := s.written + [s.writer.item], writer := Draining))
  {
    var more := s.written + [s.writer.item];
    assert more + [] == more;
  }

  lemma WriterFlow(s: State, a: Action)
    requires Flow(s) && Enabled(s, a) && WriterStep(a)
    ensures Flow(Next(s, a))
  {
    if a.Recv? || (a.TryRecv? && s.queue != []) {
      TakeFlow(s);
    } else if a.Write? {
      WriteFlow(s);
    }
  }

  // ---------- One response each ----------

  /** The response fits the request it answers. */
  predicate Fits(s: State, i: Item) {
    && i.req < s.next <= |s.reqs|
    && i.seqNo == s.reqs[i.req].seqNo
    && match RouteOf(s.reqs[i.req])
       case Ping => i.msg == [] && i.reply == Fine(None)
       case Malformed => i.msg == [] && i.reply == TaskReply.Broken(Rpc(Decode))
       case Dispatched(_, _) => true
  }

  /** Where request `r`, already read, is. */
  ghost predicate Somewhere(s: State, r: nat) {
    || r in s.at || r in s.outstanding
    || (s.reader.Replying? && s.reader.item.req == r)
    || s.writer.Dead?
  }

  ghost predicate Tally(s: State) {
    && s.next <= |s.reqs|
    && (forall k :: 0 <= k < |s.sent| ==> Fits(s, s.sent[k]) && s.sent[k].req in s.at && s.at[s.sent[k].req] == k)
    && (forall r :: r in s.at ==> r < s.next && s.at[r] < |s.sent| && s.sent[s.at[r]].req == r && r !in s.outstanding)
    && (forall r :: r in s.outstanding ==> r < s.next && RouteOf(s.reqs[r]).Dispatched?)
    && (s.reader.Replying? ==>
          Fits(s, s.reader.item) && s.reader.item.req !in s.at && s.reader.item.req !in s.outstanding)
    && (forall r: nat :: r < s.next ==> Somewhere(s, r))
  }

  /** One more request has been read: it is being answered at once, or it is outstanding. */
  lemma MoreRead(s: State, n: State)
    requires Tally(s) && !s.reader.Replying? && s.next < |s.reqs|
    requires n == s.(next := s.next + 1, reader := n.reader, outstanding := n.outstanding)
    requires if n.reader.Replying?
             then n.reader.item.req == s.next && Fits(n, n.reader.item) && n.outstanding == s.outstanding
             else n.outstanding == s.outstanding + {s.next} && RouteOf(s.reqs[s.next]).Dispatched?
    ensures Tally(n)
  {
    forall r: nat | r < n.next ensures Somewhere(n, r) { if r < s.next { assert Somewhere(s, r); } }
    forall k | 0 <= k < |n.sent| ensures Fits(n, n.sent[k]) { assert Fits(s, s.sent[k]); }
  }

  lemma ReadTally(s: State)
    requires Tally(s) && Enabled(s, Read)
    ensures Tally(Next(s, Read))
  {
    MoreRead(s, Next(s, Read));
  }

  lemma ReplyTally(s: State)
    requires Tally(s) && Flow(s) && Enabled(s, SendReply)
    ensures Tally(Next(s, SendReply))
  {
    var n := Next(s, SendReply);
    forall r: nat | r < n.next ensures Somewhere(n, r) { assert Somewhere(s, r); }
    forall k | 0 <= k < |n.sent| ensures Fits(n, n.sent[k]) { if k < |s.sent| { assert Fits(s, s.sent[k]); } }
  }

  lemma AnswerTally(s: State, a: Action)
    requires Tally(s) && Flow(s) && a.Answer? && Enabled(s, a)
    ensures Tally(Next(s, a))
  {
    var n := Next(s, a);
    forall r: nat | r < n.next ensures Somewhere(n, r) { assert Somewhere(s, r); }
    forall k | 0 <= k < |n.sent| ensures Fits(n, n.sent[k]) { if k < |s.sent| { assert Fits(s, s.sent[k]); } }
  }

  /** The writer's steps and the end of reading touch nothing that is tallied. */
  lemma OtherTally(s: State, n: State)
    requires Tally(s)
    requires n == s.(reader := n.reader, queue := n.queue, writer := n.writer, written := n.written,
             flushed := n.flushed)
    requires (n.reader == s.reader || (s.reader == Ready && n.reader == Gone)) && (s.writer.Dead? ==> n.writer.Dead?)
    ensures Tally(n)
  {
    forall r: nat | r < n.next ensures Somewhere(n, r) { assert Somewhere(s, r); }
    forall k | 0 <= k < |n.sent| ensures Fits(n, n.sent[k]) { assert Fits(s, s.sent[k]); }
  }

  lemma StepTally(s: State, a: Action)
    requires Tally(s) && Flow(s) && Enabled(s, a)
    ensures Tally(Next(s, a))
  {
    if a.Read? {
      ReadTally(s);
    } else if a.SendReply? {
      ReplyTally(s);
    } else if a.Answer? {
      AnswerTally(s, a);
    } else {
      OtherTally(s, Next(s, a));
    }
  }

  // ---------- Inline dispatch ----------

  /** Requests read and not yet answered. */
  function Busy(s: State): nat {
    if s.reader.Replying? || s.reader.Serving? then 1 else 0
  }

  /** The reader has at most one request open, and answers go out in the order of the requests. */
  ghost predicate Ordered(s: State) {
    && s.inline
    && (forall k :: 0 <= k < |s.sent| ==> s.sent[k].req == k)
    && (!s.writer.Dead? ==> |s.sent| + Busy(s) == s.next)
    && (s.reader.Serving? ==> s.outstanding == {s.reader.req} && s.reader.req + 1 == s.next)
    && (!s.reader.Serving? ==> s.outstanding == {})
    && (s.reader.Replying? ==> s.reader.item.req + 1 == s.next)
  }

  lemma StepOrdered(s: State, a: Action)
    requires Ordered(s) && Flow(s) && Enabled(s, a)
    ensures Ordered(Next(s, a))
  {
    var n := Next(s, a);
    if WriterStep(a) { assert n.sent == s.sent && n.reader == s.reader; }
  }

  ghost predicate Inv(s: State) {
    Flow(s) && Tally(s) && (s.inline ==> Ordered(s))
  }

  lemma StepKeeps(s: State, a: Action)
    requires Inv(s) && Enabled(s, a)
    ensures Inv(Next(s, a))
  {
    if WriterStep(a) { WriterFlow(s, a); } else { ReaderFlow(s, a); }
    StepTally(s, a);
    if s.inline { StepOrdered(s, a); }
  }

  lemma {:induction false} PathKeeps(s: State, acts: seq<Action>, t: State)
    requires Inv(s) && Path(s, acts, t)
    ensures Inv(t)
    decreases |acts|
  {
    if acts != [] {
      StepKeeps(s, acts[0]);
      PathKeeps(Next(s, acts[0]), acts[1..], t);
    }
  }

  lemma ReachableInv(s: State)
    requires Reachable(s)
    ensures Inv(s)
  {
    var inline: bool, reqs: seq<SvrReq>, acts: seq<Action> :| Path(Init(inline, reqs), acts, s);
    PathKeeps(Init(inline, reqs), acts, s);
  }

  /** With any dispatch: the wire is a prefix of what entered the channel, each response carries the
      number of the request it answers, and no request is answered twice. */
  lemma OneResponseEach(s: State)
    requires Reachable(s)
    ensures s.written <= s.sent
    ensures forall k :: 0 <= k < |s.written| ==> Fits(s, s.written[k])
    ensures forall j, k :: 0 <= j < k < |s.written| ==> s.written[j].req != s.written[k].req
  {
    ReachableInv(s);
    assert forall k :: 0 <= k < |s.written| ==> s.written[k] == s.sent[k];
  }

  ghost predicate Responded(s: State, r: nat) {
    exists k :: 0 <= k < |s.written| && s.written[k].req == r
  }

  /** The write side is shut down only after every request read has its response on the wire and
      everything is flushed. */
  lemma DrainsBeforeShutdown(s: State)
    requires Reachable(s) && s.writer == Done(true)
    ensures s.written == s.sent && s.flushed == |s.written| && s.reader == Gone
    ensures forall r: nat :: r < s.next ==> Responded(s, r)
  {
    ReachableInv(s);
    assert s.written + [] + [] == s.written;
    forall r: nat | r < s.next ensures Responded(s, r) {
      assert Somewhere(s, r);
      assert s.written[s.at[r]].req == r;
    }
  }

  /** With the reader waiting for its service, the k-th response answers the k-th request. */
  lemma ResponsesInOrder(s: State, k: nat)
    requires Reachable(s) && s.inline && k < |s.written|
    ensures s.written[k].req == k && Fits(s, s.written[k])
  {
    ReachableInv(s);
    assert s.written[k] == s.sent[k];
  }

  // ---------- What each request is answered with ----------

  /** A string is dispatched to what stands before its first dot and what stands behind it. */
  lemma DottedIsDispatched(q: SvrReq, service: Bytes, name: Bytes)
    requires q.action == Str(service + [DOT] + name) && DOT !in service
    ensures RouteOf(q) == Dispatched(service, name)
  {
    SplitJoined(service, name);
  }

  /** On the wire, without regard to how requests are routed: the number of the request; an empty
      success for a ping; a decoding error for any other number, a number with a message, and a string
      without a dot. Only requests with a dot wait for a service. */
  lemma RepliesExact(s: State, k: nat)
    requires Reachable(s) && k < |s.written|
    ensures s.written[k].req < |s.reqs|
    ensures var i, q := s.written[k], s.reqs[s.written[k].req];
            && i.seqNo == q.seqNo
            && (q.action == Num(0) && q.msg == [] ==> i.msg == [] && i.reply == Fine(None))
            && (q.action.Num? && (q.action != Num(0) || q.msg != []) ==>
                  i.msg == [] && i.reply == TaskReply.Broken(Rpc(Decode)))
            && (q.action.Str? && DOT !in q.action.str ==> i.msg == [] && i.reply == TaskReply.Broken(Rpc(Decode)))
    ensures forall r :: r in s.outstanding ==> r < |s.reqs| && s.reqs[r].action.Str? && DOT in s.reqs[r].action.str
  {
    OneResponseEach(s);
    ReachableInv(s);
    assert Fits(s, s.written[k]);
  }

  /** Every response to a dispatched request in the channel is one that its service gave. */
  ghost predicate Sourced(s: State, past: seq<Action>) {
    && (forall k :: 0 <= k < |s.sent| ==>
          var i := s.sent[k];
          i.req < |s.reqs| && (RouteOf(s.reqs[i.req]).Dispatched? ==> Answer(i.req, i.msg, i.reply) in past))
    && (s.reader.Replying? ==>
          s.reader.item.req < |s.reqs| && !RouteOf(s.reqs[s.reader.item.req]).Dispatched?)
  }

  lemma SourcedStep(s: State, past: seq<Action>, a: Action)
    requires Sourced(s, past) && Enabled(s, a)
    ensures Sourced(Next(s, a), past + [a])
  {
    var n := Next(s, a);
    forall k | 0 <= k < |n.sent|
      ensures var i := n.sent[k];
              i.req < |n.reqs| && (RouteOf(n.reqs[i.req]).Dispatched? ==> Answer(i.req, i.msg, i.reply) in past + [a])
    {
      if k < |s.sent| { assert n.sent[k] == s.sent[k]; }
    }
  }

  lemma {:induction false} SourcedRun(s: State, past: seq<Action>, acts: seq<Action>, t: State)
    requires Sourced(s, past) && Path(s, acts, t)
    ensures Sourced(t, past + acts)
    decreases |acts|
  {
    if acts == [] {
      assert past + acts == past;
    } else {
      SourcedStep(s, past, acts[0]);
      SourcedRun(Next(s, acts[0]), past + [acts[0]], acts[1..], t);
      assert past + [acts[0]] + acts[1..] == past + acts;
    }
  }

  /** A dispatched request is answered on the wire with the very message and result its service gave. */
  lemma ServiceAnswersArrive(inline: bool, reqs: seq<SvrReq>, acts: seq<Action>, t: State, k: nat)
    requires Path(Init(inline, reqs), acts, t) && k < |t.written|
    requires t.written[k].req < |t.reqs| && RouteOf(t.reqs[t.written[k].req]).Dispatched?
    ensures Answer(t.written[k].req, t.written[k].msg, t.written[k].reply) in acts
  {
    SourcedRun(Init(inline, reqs), [], acts, t);
    assert [] + acts == acts;
    assert Reachable(t);
    ReachableInv(t);
    assert t.written[k] == t.sent[k];
  }

  /** Once the writer is gone, a reader that has a quick reply to send reads no further request. */
  lemma {:induction false} GoneWriterStopsReader(s: State, acts: seq<Action>, t: State)
    requires Path(s, acts, t) && !Listening(s.writer) && (s.reader.Replying? || s.reader == Gone)
    ensures t.next == s.next && t.sent == s.sent
    decreases |acts|
  {
    if acts != [] { GoneWriterStopsReader(Next(s, acts[0]), acts[1..], t); }
  }

  /** A reader that has hung up reads no further request. */
  lemma {:induction false} HangupEndsReading(s: State, acts: seq<Action>, t: State)
    requires s.reader == Ready && Path(Next(s, Hangup), acts, t)
    ensures t.next == s.next && t.reader == Gone
  {
    GoneReadsNothing(Next(s, Hangup), acts, t);
  }

  lemma {:induction false} GoneReadsNothing(s: State, acts: seq<Action>, t: State)
    requires Path(s, acts, t) && s.reader == Gone
    ensures t.next == s.next && t.reader == Gone
    decreases |acts|
  {
    if acts != [] { GoneReadsNothing(Next(s, acts[0]), acts[1..], t); }
  }

  /** The writer flushes only when it has found the channel empty, and leaves the connection shut only
      by a flush that succeeds. */
  lemma WriterTurns(s: State, a: Action)
    requires Enabled(s, a)
    ensures s.writer != Flushing && Next(s, a).writer == Flushing ==> s.queue == [] && s.writer == Draining
    ensures forall b :: !s.writer.Done? && Next(s, a).writer == Done(b) ==> a == Shut(b)
  {
  }

  /** And it writes all that is in the channel, in order, before it flushes. */
  lemma {:induction false} OneFlushPerTurn(s: State) returns (acts: seq<Action>, t: State)
    requires s.writer == Draining
    ensures Path(s, acts, t) && t.writer == Flushing && t.queue == [] && t.written == s.written + s.queue
    ensures forall a :: a in acts ==> a == TryRecv || a == Write(true)
    decreases |s.queue|
  {
    var n := Next(s, TryRecv);
    if s.queue == [] {
      acts, t := [TryRecv], n;
      PathFrom(s, TryRecv, [], n);
    } else {
      var m := Next(n, Write(true));
      acts, t := OneFlushPerTurn(m);
      PathFrom(n, Write(true), acts, t);
      PathFrom(s, TryRecv, [Write(true)] + acts, t);
      acts := [TryRecv] + ([Write(true)] + acts);
      assert s.written + [s.queue[0]] + s.queue[1..] == s.written + s.queue;
    }
  }

  lemma PathFrom(s: State, a: Action, acts: seq<Action>, t: State)
    requires Enabled(s, a) && Path(Next(s, a), acts, t)
    ensures Path(s, [a] + acts, t)
  {
    assert ([a] + acts)[1..] == acts;
  }

  // ---------- The bytes ----------

  predicate ItemOk(i: Item) {
    i.seqNo < U64 && (i.reply.Broken? && i.reply.err.Errno? ==> i.reply.err.n < U32)
  }

  predicate ItemsOk(items: seq<Item>) {
    forall k :: 0 <= k < |items| ==> ItemOk(items[k])
  }

  /** The bytes of all responses from the k-th on. */
  function WireFrom(items: seq<Item>, k: nat): Bytes
    requires ItemsOk(items) && k <= |items|
    decreases |items| - k
  {
    if k == |items| then [] else ReplyBytes(items[k].seqNo, items[k].msg, items[k].reply) + WireFrom(items, k + 1)
  }

  /** One turn of the writer: every response in order, then a flush. */
  method WriteBatch(s: BufStream, stale: Bytes, items: seq<Item>) returns (r: Result<(), IoError>)
    requires s.Valid() && |stale| == RESP_HEAD_LEN && ItemsOk(items)
    modifies s.wr, s.wr.buf, s.inner`outgoing, s.inner`wscript
    ensures s.Valid()
    ensures r.Ok? ==> s.inner.outgoing == old(s.Accepted()) + WireFrom(items, 0)
    ensures Lively(old(s.inner.wscript)) ==> r.Ok?
  {
    ghost var all := s.Accepted() + WireFrom(items, 0);
    for k := 0 to |items|
      invariant s.Valid() && s.Accepted() + WireFrom(items, k) == all
      invariant Lively(old(s.inner.wscript)) ==> Lively(s.inner.wscript)
    {
      var i := items[k];
      Assoc(s.Accepted(), ReplyBytes(i.seqNo, i.msg, i.reply), WireFrom(items, k + 1));
      r := TcpServer.WriteResp(s, stale, i.seqNo, i.msg, i.reply);
      if r.Err? { return; }
    }
    r := s.Flush();
  }

  /** A response whose bytes are its frame. */
  predicate Clean(i: Item) {
    && ItemOk(i)
    && match i.reply
       case Fine(blob) => !TooLong(i.msg, blob) || i.msg == []
       case Broken(e) => i.msg == [] && |ErrText(e)| <= I32_MAX
  }

  predicate AllClean(items: seq<Item>) {
    forall k :: 0 <= k < |items| ==> Clean(items[k])
  }

  function MeantBy(items: seq<Item>): (rs: seq<Response>)
    ensures |rs| == |items|
    ensures forall k :: 0 <= k < |items| ==> rs[k] == Meant(items[k].seqNo, items[k].msg, items[k].reply)
  {
    seq(|items|, k requires 0 <= k < |items| => Meant(items[k].seqNo, items[k].msg, items[k].reply))
  }

  lemma CleanIsFrame(i: Item)
    requires Clean(i)
    ensures IsFrameOf(ReplyBytes(i.seqNo, i.msg, i.reply), Meant(i.seqNo, i.msg, i.reply))
  {
    ReplyBytesExact(i.seqNo, i.msg, i.reply);
  }

  lemma CleanStream(items: seq<Item>)
    requires AllClean(items)
    ensures forall k :: 0 <= k < |items| ==> ResponseOk(MeantBy(items)[k])
  {
    forall k | 0 <= k < |items| ensures ResponseOk(MeantBy(items)[k]) {
      CleanIsFrame(items[k]);
    }
  }

  lemma {:induction false} WireIsStream(items: seq<Item>, k: nat)
    requires AllClean(items) && ItemsOk(items) && k <= |items|
    requires forall j :: 0 <= j < |items| ==> ResponseOk(MeantBy(items)[j])
    ensures WireFrom(items, k) == ResponseStream(MeantBy(items)[k..])
    decreases |items| - k
  {
    if k < |items| {
      CleanIsFrame(items[k]);
      WireIsStream(items, k + 1);
      assert MeantBy(items)[k..][1..] == MeantBy(items)[k + 1..];
    }
  }

  /** What a fresh connection carries after one turn of the writer. */
  method WriteOut(items: seq<Item>, stale: Bytes, bufSize: nat, wscript: seq<IoEvent>) returns (out: Bytes)
    requires |stale| == RESP_HEAD_LEN && bufSize > 0 && ItemsOk(items) && Lively(wscript)
    ensures out == WireFrom(items, 0)
  {
    var socket := new Pipe([], [], wscript);
    var stream := new BufStream(socket, bufSize);
    var w := WriteBatch(stream, stale, items);
    out := socket.outgoing;
  }

  /** Responses written by the server, cut up in any way by either socket, reach the tasks that wait
      for them: the client is left as if it had been handed the responses themselves. */
  method ResponsesArrive(items: seq<Item>, stale: Bytes, serverBuf: nat, clientBuf: nat,
                         wscript: seq<IoEvent>, rscript: seq<IoEvent>,
                         decodes: (nat, Bytes) -> bool, waiting: map<nat, TcpClient.ClientTask>)
    returns (left: map<nat, TcpClient.ClientTask>, log: seq<TcpClient.Outcome>)
    requires |stale| == RESP_HEAD_LEN && serverBuf > 0 && clientBuf > 0 && AllClean(items)
    requires Lively(wscript) && Calm(rscript) && TcpClient.Readable(waiting, MeantBy(items))
    ensures (left, log) == TcpClient.DeliverAll(decodes, waiting, [], MeantBy(items))
  {
    CleanStream(items);
    WireIsStream(items, 0);
    assert MeantBy(items)[0..] == MeantBy(items);
    var out := WriteOut(items, stale, serverBuf, wscript);
    var down := new Pipe(out, rscript, []);
    var cs := new BufStream(down, clientBuf);
    var c := new TcpClient.Connection(cs, decodes, waiting);
    assert cs.Incoming() == ResponseStream(MeantBy(items)) + [];
    var r := TcpClient.ReadAll(c, |items|, MeantBy(items), []);
    left, log := c.waiting, c.log;
  }
}
