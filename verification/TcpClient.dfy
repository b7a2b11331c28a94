/** The client end of a connection: writing requests, and reading responses back to the tasks that
    wait for them. */
module TcpClient {
  import opened Prelude
  import opened Errors
  import opened Wire
  import opened Frames
  import opened BufIo

  /** `hasBlobBuf` says whether the task can reserve room for a response blob. */
  datatype ClientTask = ClientTask(id: nat, hasBlobBuf: bool)

  /** How a task ended: set_ok and done, or an error set and handed to error_handle. */
  datatype Outcome = Done(id: nat, msg: Bytes, blob: Bytes) | Failed(id: nat, err: EncodedErr)

  /** `Panic` is the unreachable!() arm, or a vector resized beyond any memory. */
  datatype ReadResult = Consumed | Failing(err: RpcIntErr) | Panic

  /** The end of reading a header. */
  datatype HeadRead = Got(head: RespHead) | Refused(err: RpcIntErr) | Ended(lost: nat)

  /** The end of one read_resp: a response was read, or the close channel fired after `lost` bytes
      of its header. */
  datatype RespRead = Read(result: ReadResult) | Closed(lost: nat)

  /** An error text is an internal error only if it is one of the reserved names. */
  function TextError(text: Bytes): EncodedErr {
    if RPC_ERR_PREFIX <= text && Utf8(text) && FromName(text).Some? then Rpc(FromName(text).value) else Buf(text)
  }

  /** What a complete response means for the task it answers. */
  function OutcomeOf(decodes: (nat, Bytes) -> bool, task: ClientTask, r: Response): Outcome {
    match r
    case ErrnoReply(_, n) => Failed(task.id, Errno(n))
    case TextReply(_, text) => Failed(task.id, TextError(text))
    case Reply(_, msg, blob) =>
      if (blob != [] && !task.hasBlobBuf) || (msg != [] && !decodes(task.id, msg)) then Failed(task.id, Rpc(Decode))
      else Done(task.id, msg, blob)
  }

  /** The registry and the finished tasks after a response. */
  function Deliver(decodes: (nat, Bytes) -> bool, waiting: map<nat, ClientTask>, log: seq<Outcome>, r: Response)
    : (map<nat, ClientTask>, seq<Outcome>)
  {
    if r.seqNo in waiting then (waiting - {r.seqNo}, log + [OutcomeOf(decodes, waiting[r.seqNo], r)])
    else (waiting, log)
  }

  function DeliverAll(decodes: (nat, Bytes) -> bool, waiting: map<nat, ClientTask>, log: seq<Outcome>,
                      rs: seq<Response>)
    : (map<nat, ClientTask>, seq<Outcome>)
    decreases |rs|
  {
    if rs == [] then (waiting, log)
    else var (w, l) := Deliver(decodes, waiting, log, rs[0]); DeliverAll(decodes, w, l, rs[1..])
  }

  /** The whole body the header announces has arrived. */
  ghost predicate Complete(h: RespHead, b: Bytes) {
    h.flag <= 2 && h.blobLen >= 0 && BodyLen(h) <= |b|
  }

  /** The reader takes all of these: a response nobody waits for must have a body it can skip. */
  ghost predicate Readable(waiting: map<nat, ClientTask>, rs: seq<Response>)
    decreases |rs|
  {
    rs == [] ||
    ((rs[0].seqNo in waiting || |ResponseBody(rs[0])| <= I32_MAX) && Readable(waiting - {rs[0].seqNo}, rs[1..]))
  }

  /** How many bytes the reader skips for a response nobody waits for: a sum of u32. */
  function SkipLen(h: RespHead): nat
    requires RespHeadFits(h)
  {
    if h.flag == 0 then (h.msgLen + AsU32(h.blobLen)) % U32
    else if h.flag == RESP_FLAG_HAS_ERR_STRING then AsU32(h.blobLen)
    else 0
  }

  /** What became of the body of a response nobody waits for. */
  ghost predicate SkipsTo(h: RespHead, before: Bytes, r: ReadResult, after: Bytes)
    requires RespHeadFits(h)
  {
    && SkipLen(h) <= |before| && (r == Consumed <==> SkipLen(h) <= I32_MAX)
    && (r == Consumed ==> after == before[SkipLen(h)..])
  }

  lemma SkipLenExact(h: RespHead, b: Bytes)
    requires RespHeadFits(h) && Complete(h, b)
    ensures SkipLen(h) <= BodyLen(h)
    ensures SkipLen(h) <= I32_MAX && b[SkipLen(h)..] == b[BodyLen(h)..] <==> BodyLen(h) <= I32_MAX
  {
    if SkipLen(h) != BodyLen(h) { assert |b[SkipLen(h)..]| != |b[BodyLen(h)..]|; }
  }

  /** A flag no server sends, or a text of negative length: the reader panics. */
  predicate Absurd(h: RespHead) {
    h.flag > 2 || (h.flag == 2 && h.blobLen < 0)
  }

  /** `b` is the frame of `r` and then `rest`. */
  ghost predicate Begins(b: Bytes, r: Response, rest: Bytes) {
    ResponseOk(r) && b == ResponseFrame(r) + rest
  }

  class Connection {
    const stream: BufStream
    /** Does the task's decode_resp accept the message? */
    const decodes: (nat, Bytes) -> bool
    /** The map take_task works on. */
    var waiting: map<nat, ClientTask>
    var log: seq<Outcome>

    ghost predicate Valid()
      reads this, stream, stream.rd, stream.wr
    {
      stream.Valid()
    }

    constructor (stream: BufStream, decodes: (nat, Bytes) -> bool, waiting: map<nat, ClientTask>)
      requires stream.Valid()
      ensures Valid() && this.stream == stream && this.decodes == decodes && this.waiting == waiting && log == []
    {
      this.stream, this.decodes, this.waiting, this.log := stream, decodes, waiting, [];
    }

    method Finish(o: Outcome)
      modifies this`log
      ensures log == old(log) + [o]
    {
      log := log + [o];
    }

    /** write_req: the encode buffer, the blob, and a flush if asked for. */
    method WriteReq(buf: Bytes, blob: Option<Bytes>, needFlush: bool) returns (r: Result<(), IoError>)
      requires Valid()
      modifies stream.wr, stream.wr.buf, stream.inner`outgoing, stream.inner`wscript
      ensures Valid()
      ensures r.Ok? ==> stream.Accepted() == old(stream.Accepted()) + (buf + BlobBytes(blob))
      ensures r.Ok? && needFlush ==> stream.inner.outgoing == stream.Accepted()
      ensures Lively(old(stream.inner.wscript)) ==> Lively(stream.inner.wscript) && r.Ok?
    {
      r := stream.WriteAll(buf);
      if r.Err? { return; }
      if blob.Some? {
        r := stream.WriteAll(blob.value);
        if r.Err? { return; }
      }
      if needFlush {
        r := stream.Flush();
        if r.Err? { return; }
      }
      r := Ok(());
    }

    /** _recv_and_dump; a length that is not a positive i32 cannot be allocated. */
    method Dump(n: nat) returns (r: ReadResult)
      requires Valid()
      modifies stream.rd, stream.rd.buf, stream.inner`incoming, stream.inner`rscript
      ensures Valid()
      ensures Calm(old(stream.inner.rscript)) ==>
              Calm(stream.inner.rscript) && (r == Consumed <==> n <= I32_MAX && n <= |old(stream.Incoming())|)
      ensures r == Consumed ==> n <= |old(stream.Incoming())| && stream.Incoming() == old(stream.Incoming())[n..]
      ensures |stream.Incoming()| <= |old(stream.Incoming())|
      ensures r != Panic
    {
      if n > I32_MAX { return Failing(IO); }
      var g := stream.ReadN(n);
      return if g.Ok? then Consumed else Failing(IO);
    }

    /** The task is handed back exactly once on every path through the body. */
    ghost predicate HandedBack(task: ClientTask, before: seq<Outcome>, after: seq<Outcome>) {
      |after| == |before| + 1 && after[..|before|] == before && after[|before|].id == task.id
    }

    /** The text of an error response: a reserved name, or a user's error. */
    method FinishText(task: ClientTask, buf: Bytes)
      modifies this`log
      ensures log == old(log) + [Failed(task.id, TextError(buf))]
    {
      if RPC_ERR_PREFIX <= buf {
        if Utf8(buf) {
          var e := FromName(buf);
          if e.Some? {
            Finish(Failed(task.id, Rpc(e.value)));
            return;
          }
        }
      }
      Finish(Failed(task.id, Buf(buf)));
    }

    /** The body of an error response with a text of `n` bytes. */
    method RecvText(n: nat, task: ClientTask) returns (r: ReadResult)
      requires Valid()
      modifies this`log, stream.rd, stream.rd.buf, stream.inner`incoming, stream.inner`rscript
      ensures Valid()
      ensures r != Panic && HandedBack(task, old(log), log)
      ensures |stream.Incoming()| <= |old(stream.Incoming())|
      ensures Calm(old(stream.inner.rscript)) ==> Calm(stream.inner.rscript)
      ensures Calm(old(stream.inner.rscript)) && n <= |old(stream.Incoming())| ==>
              && r == Consumed
              && stream.Incoming() == old(stream.Incoming())[n..]
              && log == old(log) + [Failed(task.id, TextError(old(stream.Incoming())[..n]))]
    {
      var g := stream.ReadN(n);
      if g.Err? {
        Finish(Failed(task.id, Rpc(IO)));
        return Failing(IO);
      }
      FinishText(task, g.value);
      return Consumed;
    }

    /** _recv_error. */
    method RecvError(h: RespHead, task: ClientTask) returns (r: ReadResult)
      requires Valid() && RespHeadFits(h) && h.flag > 0
      modifies this`log, stream.rd, stream.rd.buf, stream.inner`incoming, stream.inner`rscript
      ensures Valid()
      ensures r == Panic <==> Absurd(h)
      ensures r != Panic ==> HandedBack(task, old(log), log)
      ensures |stream.Incoming()| <= |old(stream.Incoming())|
      ensures Calm(old(stream.inner.rscript)) ==> Calm(stream.inner.rscript)
      ensures Calm(old(stream.inner.rscript)) && Complete(h, old(stream.Incoming())) ==>
              && r == Consumed
              && stream.Incoming() == old(stream.Incoming())[BodyLen(h)..]
              && log == old(log) + [OutcomeOf(decodes, task, BodyOf(h, old(stream.Incoming())))]
    {
      if h.flag == RESP_FLAG_HAS_ERRNO {
        Finish(Failed(task.id, Errno(h.msgLen)));
        return Consumed;
      }
      if h.flag != RESP_FLAG_HAS_ERR_STRING { return Panic; }
      if h.blobLen < 0 { return Panic; }
      r := RecvText(h.blobLen, task);
    }

    /** The body of a successful response for a waiting task. */
    method RecvReply(h: RespHead, task: ClientTask) returns (r: ReadResult)
      requires Valid() && RespHeadFits(h) && h.flag == 0
      modifies this`log, stream.rd, stream.rd.buf, stream.inner`incoming, stream.inner`rscript
      ensures Valid()
      ensures r != Panic && HandedBack(task, old(log), log)
      ensures |stream.Incoming()| <= |old(stream.Incoming())|
      ensures Calm(old(stream.inner.rscript)) ==> Calm(stream.inner.rscript)
      ensures Calm(old(stream.inner.rscript)) && Complete(h, old(stream.Incoming())) ==>
              && r == Consumed
              && stream.Incoming() == old(stream.Incoming())[BodyLen(h)..]
              && log == old(log) + [OutcomeOf(decodes, task, BodyOf(h, old(stream.Incoming())))]
    {
      ghost var all := stream.Incoming();
      var msg := [];
      if h.msgLen > 0 {
        var g := stream.ReadN(h.msgLen);
        if g.Err? {
          Finish(Failed(task.id, Rpc(IO)));
          return Failing(IO);
        }
        msg := g.value;
      }
      assert |all| >= h.msgLen && msg == all[..h.msgLen] && stream.Incoming() == all[h.msgLen..];
      r := RecvBlob(h, task, msg);
      if h.blobLen >= 0 && BodyLen(h) <= |all| {
        assert all[h.msgLen..][..h.blobLen] == all[h.msgLen..h.msgLen + h.blobLen];
      }
    }

    /** The blob of a successful response, and the end of the task. */
    method RecvBlob(h: RespHead, task: ClientTask, msg: Bytes) returns (r: ReadResult)
      requires Valid() && RespHeadFits(h) && |msg| == h.msgLen
      modifies this`log, stream.rd, stream.rd.buf, stream.inner`incoming, stream.inner`rscript
      ensures Valid()
      ensures r != Panic && HandedBack(task, old(log), log)
      ensures |stream.Incoming()| <= |old(stream.Incoming())|
      ensures Calm(old(stream.inner.rscript)) ==> Calm(stream.inner.rscript)
      ensures Calm(old(stream.inner.rscript)) && 0 <= h.blobLen <= |old(stream.Incoming())| ==>
              && r == Consumed
              && stream.Incoming() == old(stream.Incoming())[h.blobLen..]
              && log == old(log) + [OutcomeOf(decodes, task, Reply(h.seqNo, msg, old(stream.Incoming())[..h.blobLen]))]
    {
      var blob := [];
      if h.blobLen > 0 {
        if !task.hasBlobBuf {
          Finish(Failed(task.id, Rpc(Decode)));
          r := Dump(h.blobLen);
          return;
        }
        var g := stream.ReadN(h.blobLen);
        if g.Err? {
          Finish(Failed(task.id, Rpc(IO)));
          return Failing(IO);
        }
        blob := g.value;
      }
      if h.msgLen > 0 && !decodes(task.id, msg) {
        Finish(Failed(task.id, Rpc(Decode)));
        return Consumed;
      }
      Finish(Done(task.id, msg, blob));
      return Consumed;
    }

    /** The body of a response nobody waits for: u32 arithmetic, then skipped. */
    method RecvUnclaimed(h: RespHead) returns (r: ReadResult)
      requires Valid() && RespHeadFits(h)
      modifies stream.rd, stream.rd.buf, stream.inner`incoming, stream.inner`rscript
      ensures Valid() && r != Panic
      ensures |stream.Incoming()| <= |old(stream.Incoming())|
      ensures Calm(old(stream.inner.rscript)) ==> Calm(stream.inner.rscript)
      ensures Calm(old(stream.inner.rscript)) && Complete(h, old(stream.Incoming())) ==>
              && SkipsTo(h, old(stream.Incoming()), r, stream.Incoming())
              && ((r == Consumed && stream.Incoming() == old(stream.Incoming())[BodyLen(h)..])
                  <==> BodyLen(h) <= I32_MAX)
    {
      var n := 0;
      if h.flag == 0 {
        n := (h.msgLen + AsU32(h.blobLen)) % U32;
      } else if h.flag == RESP_FLAG_HAS_ERR_STRING {
        n := AsU32(h.blobLen);
      }
      ghost var all := stream.Incoming();
      if Complete(h, all) { SkipLenExact(h, all); }
      if n > 0 {
        r := Dump(n);
      } else {
        r := Consumed;
      }
    }

    /** The body of a response for a waiting task. */
    method RecvClaimed(h: RespHead, task: ClientTask) returns (r: ReadResult)
      requires Valid() && RespHeadFits(h)
      modifies this`log, stream.rd, stream.rd.buf, stream.inner`incoming, stream.inner`rscript
      ensures Valid()
      ensures r == Panic <==> Absurd(h)
      ensures r != Panic ==> HandedBack(task, old(log), log)
      ensures |stream.Incoming()| <= |old(stream.Incoming())|
      ensures Calm(old(stream.inner.rscript)) ==> Calm(stream.inner.rscript)
      ensures Calm(old(stream.inner.rscript)) && Complete(h, old(stream.Incoming())) ==>
              && r == Consumed
              && stream.Incoming() == old(stream.Incoming())[BodyLen(h)..]
              && log == old(log) + [OutcomeOf(decodes, task, BodyOf(h, old(stream.Incoming())))]
    {
      if h.flag > 0 {
        r := RecvError(h, task);
      } else {
        r := RecvReply(h, task);
      }
    }

    /** The body behind a header. */
    method RecvBody(h: RespHead) returns (r: ReadResult)
      requires Valid() && RespHeadFits(h)
      modifies this`log, this`waiting, stream.rd, stream.rd.buf, stream.inner`incoming, stream.inner`rscript
      ensures Valid()
      ensures r == Panic <==> h.seqNo in old(waiting) && Absurd(h)
      ensures waiting == old(waiting) - {h.seqNo}
      ensures r != Panic && h.seqNo in old(waiting) ==> HandedBack(old(waiting)[h.seqNo], old(log), log)
      ensures h.seqNo !in old(waiting) ==> log == old(log)
      ensures |stream.Incoming()| <= |old(stream.Incoming())|
      ensures Calm(old(stream.inner.rscript)) ==> Calm(stream.inner.rscript)
      ensures Calm(old(stream.inner.rscript)) && Complete(h, old(stream.Incoming())) ==>
              && (waiting, log) == Deliver(decodes, old(waiting), old(log), BodyOf(h, old(stream.Incoming())))
              && ((r == Consumed && stream.Incoming() == old(stream.Incoming())[BodyLen(h)..])
                  <==> h.seqNo in old(waiting) || BodyLen(h) <= I32_MAX)
      ensures Calm(old(stream.inner.rscript)) && Complete(h, old(stream.Incoming())) && h.seqNo !in old(waiting) ==>
              SkipsTo(h, old(stream.Incoming()), r, stream.Incoming())
    {
      if h.seqNo in waiting {
        var task := waiting[h.seqNo];
        waiting := waiting - {h.seqNo};
        r := RecvClaimed(h, task);
      } else {
        assert waiting - {h.seqNo} == waiting;
        r := RecvUnclaimed(h);
      }
    }

    /** The header; with a close channel a stall ends the read. */
    method ReadHead(close: bool, ghost k: nat) returns (r: HeadRead)
      requires Valid()
      modifies stream.rd, stream.rd.buf, stream.inner`incoming, stream.inner`rscript
      ensures Valid()
      ensures r.Got? ==> RespHeadFits(r.head) && HeadIs(old(stream.Incoming()), Head(r.head), stream.Incoming())
      ensures r.Ended? <==> close && Stalled(old(stream.inner.rscript), stream.inner.rscript)
                            && |old(stream.Incoming())| - |stream.Incoming()| < RESP_HEAD_LEN
      ensures r.Ended? ==> CutAt(RESP_HEAD_LEN, old(stream.Incoming()), r.lost, stream.Incoming())
      ensures close && old(stream.StallsAfter(RESP_HEAD_LEN, k)) ==> r == Ended(k)
      ensures Calm(old(stream.inner.rscript)) ==>
              && Calm(stream.inner.rscript) && !r.Ended?
              && (|old(stream.Incoming())| < RESP_HEAD_LEN ==> r == Refused(IO))
              && (|old(stream.Incoming())| >= RESP_HEAD_LEN ==>
                    var d := DecodeRespHead(old(stream.Incoming())[..RESP_HEAD_LEN]);
                    if d.Head? then r.Got? else r == Refused(d.error))
    {
      var g := stream.ReadN(RESP_HEAD_LEN, k);
      if g.Err? {
        return if close && g.error.Cancelled? then Ended(g.error.delivered) else Refused(IO);
      }
      var d := DecodeRespHead(g.value);
      return if d.Bad? then Refused(d.error) else Got(d.head);
    }

    /** read_resp. A complete response is consumed to its last byte and answers its task, whether
        that task is waiting or not, lacks a blob buffer, cannot decode, or gets an error; for a task
        no longer waiting this needs, and only needs, a body of at most i32::MAX bytes. With a close
        channel a stall in the header ends the read: nothing but the position changes, and the reader
        is still at the frame boundary exactly if no byte of the header had arrived. */
    method ReadResp(close: bool, ghost k: nat := 0) returns (r: RespRead)
      requires Valid()
      modifies this`log, this`waiting, stream.rd, stream.rd.buf, stream.inner`incoming, stream.inner`rscript
      ensures Valid()
      ensures forall resp, rest :: Begins(old(stream.Incoming()), resp, rest) && Calm(old(stream.inner.rscript)) ==>
                && (waiting, log) == Deliver(decodes, old(waiting), old(log), resp)
                && ((r == Read(Consumed) && stream.Incoming() == rest)
                    <==> resp.seqNo in old(waiting) || |ResponseBody(resp)| <= I32_MAX)
                && (resp.seqNo !in old(waiting) ==>
                      r.Read? && SkipsTo(ResponseHead(resp), ResponseBody(resp) + rest, r.result, stream.Incoming()))
      ensures r.Closed? <==> close && Stalled(old(stream.inner.rscript), stream.inner.rscript)
                             && |old(stream.Incoming())| - |stream.Incoming()| < RESP_HEAD_LEN
      ensures r.Closed? ==> && waiting == old(waiting) && log == old(log)
                            && CutAt(RESP_HEAD_LEN, old(stream.Incoming()), r.lost, stream.Incoming())
                            && (stream.Incoming() == old(stream.Incoming()) <==> r.lost == 0)
      ensures close && old(stream.StallsAfter(RESP_HEAD_LEN, k)) ==> r == Closed(k)
      ensures Calm(old(stream.inner.rscript)) ==>
                (r == Read(Panic) <==> HeadPanics(old(stream.Incoming()), old(waiting)))
      ensures Calm(old(stream.inner.rscript)) && BadHead(old(stream.Incoming())).Some? ==>
              r == Read(Failing(BadHead(old(stream.Incoming())).value)) && waiting == old(waiting) && log == old(log)
      ensures Calm(old(stream.inner.rscript)) ==> Calm(stream.inner.rscript)
    {
      ghost var all := stream.Incoming();
      if |all| >= RESP_HEAD_LEN { HeadRefused(all); }
      var g := ReadHead(close, k);
      forall resp, rest | Begins(all, resp, rest)
        ensures HeadIs(all, Head(ResponseHead(resp)), ResponseBody(resp) + rest)
        ensures Complete(ResponseHead(resp), ResponseBody(resp) + rest)
        ensures BodyLen(ResponseHead(resp)) == |ResponseBody(resp)|
        ensures BodyOf(ResponseHead(resp), ResponseBody(resp) + rest) == resp
        ensures (ResponseBody(resp) + rest)[|ResponseBody(resp)|..] == rest
      {
        ResponseParses(resp, rest);
        Halves(ResponseBody(resp), rest);
      }
      match g {
        case Ended(lost) => return Closed(lost);
        case Refused(e) => return Read(Failing(e));
        case Got(h) =>
          var body := RecvBody(h);
          return Read(body);
      }
    }
  }

  /** The bytes begin with this header, and `after` follows. */
  ghost predicate HeadIs(b: Bytes, d: Decoded<RespHead>, after: Bytes) {
    |b| >= RESP_HEAD_LEN && DecodeRespHead(b[..RESP_HEAD_LEN]) == d && after == b[RESP_HEAD_LEN..]
  }

  /** What is wrong with the first bytes: too few or another magic number, or another version. */
  ghost function BadHead(b: Bytes): Option<RpcIntErr> {
    if |b| < 20 || b[0..2] != [0x25, 0x4d] then Some(IO) else if b[2] != 1 then Some(Version) else None
  }

  lemma HeadRefused(b: Bytes)
    requires |b| >= RESP_HEAD_LEN
    ensures var d := DecodeRespHead(b[..RESP_HEAD_LEN]);
            BadHead(b) == if d.Bad? then Some(d.error) else None
  {
    RespHeadRefused(b[..RESP_HEAD_LEN]);
    assert b[..RESP_HEAD_LEN][0..2] == b[0..2];
  }

  /** The bytes begin with a header the reader panics at. */
  ghost predicate HeadPanics(b: Bytes, waiting: map<nat, ClientTask>) {
    |b| >= RESP_HEAD_LEN &&
    var d := DecodeRespHead(b[..RESP_HEAD_LEN]);
    d.Head? && d.head.seqNo in waiting && Absurd(d.head)
  }

  // ---------- What a response means to its task ----------

  /** A response gives its task the very message and blob it carries, if there is room for the blob and
      the message decodes; else a decoding error; an errno or a text as it is; a reserved name as the
      internal error of that name. */
  lemma OutcomeMeans(decodes: (nat, Bytes) -> bool, task: ClientTask, r: Response)
    ensures r.Reply? && (r.blob == [] || task.hasBlobBuf) && (r.msg == [] || decodes(task.id, r.msg)) ==>
            OutcomeOf(decodes, task, r) == Done(task.id, r.msg, r.blob)
    ensures r.Reply? && r.blob != [] && !task.hasBlobBuf ==> OutcomeOf(decodes, task, r) == Failed(task.id, Rpc(Decode))
    ensures r.Reply? && r.msg != [] && !decodes(task.id, r.msg) ==>
            OutcomeOf(decodes, task, r) == Failed(task.id, Rpc(Decode))
    ensures r.ErrnoReply? ==> OutcomeOf(decodes, task, r) == Failed(task.id, Errno(r.n))
    ensures r.TextReply? && (forall e :: r.text != Name(e)) ==>
            OutcomeOf(decodes, task, r) == Failed(task.id, Buf(r.text))
    ensures forall e :: r.TextReply? && r.text == Name(e) ==> OutcomeOf(decodes, task, r) == Failed(task.id, Rpc(e))
  {
    if r.TextReply? {
      forall e | r.text == Name(e) ensures TextError(r.text) == Rpc(e) {
        NameIsReserved(e);
        NameRoundTrip(e);
      }
      FromNameNamed(r.text);
    }
  }

  lemma FromNameNamed(b: Bytes)
    ensures FromName(b).Some? ==> b == Name(FromName(b).value)
  {
  }

  /** read_resp for a task that waits, read off the response alone. */
  method ReadAnswer(c: Connection, ghost resp: Response, ghost rest: Bytes) returns (r: RespRead)
    requires c.Valid() && Calm(c.stream.inner.rscript) && Begins(c.stream.Incoming(), resp, rest)
    requires resp.seqNo in c.waiting
    modifies c`log, c`waiting, c.stream.rd, c.stream.rd.buf, c.stream.inner`incoming, c.stream.inner`rscript
    ensures c.Valid() && r == Read(Consumed) && c.stream.Incoming() == rest
    ensures c.waiting == old(c.waiting) - {resp.seqNo}
    ensures var task := old(c.waiting)[resp.seqNo];
            match resp
            case Reply(_, msg, blob) =>
              c.log == old(c.log) + [if (blob == [] || task.hasBlobBuf) && (msg == [] || c.decodes(task.id, msg))
                                     then Done(task.id, msg, blob) else Failed(task.id, Rpc(Decode))]
            case ErrnoReply(_, n) => c.log == old(c.log) + [Failed(task.id, Errno(n))]
            case TextReply(_, text) =>
              && ((forall e :: text != Name(e)) ==> c.log == old(c.log) + [Failed(task.id, Buf(text))])
              && (forall e :: text == Name(e) ==> c.log == old(c.log) + [Failed(task.id, Rpc(e))])
  {
    OutcomeMeans(c.decodes, c.waiting[resp.seqNo], resp);
    r := c.ReadResp(false);
  }

  // ---------- Runs of responses ----------

  lemma StreamSplits(rs: seq<Response>, k: nat, rest: Bytes)
    requires k < |rs| && forall i :: 0 <= i < |rs| ==> ResponseOk(rs[i])
    ensures Begins(ResponseStream(rs[k..]) + rest, rs[k], ResponseStream(rs[k + 1..]) + rest)
  {
    var tail := rs[k..];
    assert tail[0] == rs[k] && tail[1..] == rs[k + 1..];
    Assoc(ResponseFrame(rs[k]), ResponseStream(rs[k + 1..]), rest);
  }

  lemma DeliverSplits(decodes: (nat, Bytes) -> bool, w: map<nat, ClientTask>, l: seq<Outcome>, rs: seq<Response>,
                      k: nat)
    requires k < |rs|
    ensures var (w', l') := Deliver(decodes, w, l, rs[k]);
            DeliverAll(decodes, w, l, rs[k..]) == DeliverAll(decodes, w', l', rs[k + 1..])
  {
    assert rs[k..][1..] == rs[k + 1..];
  }

  lemma ReadableSplits(waiting: map<nat, ClientTask>, rs: seq<Response>, k: nat)
    requires k < |rs| && Readable(waiting, rs[k..])
    ensures rs[k].seqNo in waiting || |ResponseBody(rs[k])| <= I32_MAX
    ensures Readable(waiting - {rs[k].seqNo}, rs[k + 1..])
  {
    assert rs[k..][1..] == rs[k + 1..];
  }

  lemma DeliverRemoves(decodes: (nat, Bytes) -> bool, w: map<nat, ClientTask>, l: seq<Outcome>, r: Response)
    ensures Deliver(decodes, w, l, r).0 == w - {r.seqNo}
  {
    if r.seqNo !in w { assert w - {r.seqNo} == w; }
  }

  predicate ResponsesOk(rs: seq<Response>) {
    forall i :: 0 <= i < |rs| ==> ResponseOk(rs[i])
  }

  /** What is left on the wire before the k-th response. */
  ghost function WireAt(rs: seq<Response>, k: nat, rest: Bytes): Bytes
    requires k <= |rs| && ResponsesOk(rs)
  {
    ResponseStream(rs[k..]) + rest
  }

  /** The k-th response is next, and reading from it on leads to `final`. */
  ghost predicate NextIs(decodes: (nat, Bytes) -> bool, w: map<nat, ClientTask>, l: seq<Outcome>, rs: seq<Response>,
                         k: nat, final: (map<nat, ClientTask>, seq<Outcome>))
  {
    k <= |rs| && Readable(w, rs[k..]) && DeliverAll(decodes, w, l, rs[k..]) == final
  }

  lemma NextStep(decodes: (nat, Bytes) -> bool, w: map<nat, ClientTask>, l: seq<Outcome>, rs: seq<Response>, k: nat,
                 rest: Bytes, final: (map<nat, ClientTask>, seq<Outcome>))
    requires ResponsesOk(rs) && k < |rs| && NextIs(decodes, w, l, rs, k, final)
    ensures Begins(WireAt(rs, k, rest), rs[k], WireAt(rs, k + 1, rest))
    ensures rs[k].seqNo in w || |ResponseBody(rs[k])| <= I32_MAX
    ensures var (w', l') := Deliver(decodes, w, l, rs[k]); NextIs(decodes, w', l', rs, k + 1, final)
  {
    StreamSplits(rs, k, rest);
    DeliverSplits(decodes, w, l, rs, k);
    ReadableSplits(w, rs, k);
    DeliverRemoves(decodes, w, l, rs[k]);
  }

  method ReadNext(c: Connection, ghost resp: Response, ghost rest: Bytes) returns (r: ReadResult)
    requires c.Valid() && Calm(c.stream.inner.rscript) && Begins(c.stream.Incoming(), resp, rest)
    requires resp.seqNo in c.waiting || |ResponseBody(resp)| <= I32_MAX
    modifies c`log, c`waiting, c.stream.rd, c.stream.rd.buf, c.stream.inner`incoming, c.stream.inner`rscript
    ensures c.Valid() && Calm(c.stream.inner.rscript) && r == Consumed && c.stream.Incoming() == rest
    ensures (c.waiting, c.log) == Deliver(c.decodes, old(c.waiting), old(c.log), resp)
  {
    var read := c.ReadResp(false);
    r := read.result;
  }

  /** Frame sync over a whole run: any well-formed responses in any order, cut up in any way, are
      read one by one to the next boundary, and each task gets the outcome of its own response. */
  method ReadAll(c: Connection, n: nat, ghost rs: seq<Response>, ghost rest: Bytes) returns (r: ReadResult)
    requires c.Valid() && n == |rs| && Calm(c.stream.inner.rscript)
    requires ResponsesOk(rs) && Readable(c.waiting, rs)
    requires c.stream.Incoming() == ResponseStream(rs) + rest
    modifies c`log, c`waiting, c.stream.rd, c.stream.rd.buf, c.stream.inner`incoming, c.stream.inner`rscript
    ensures c.Valid() && r == Consumed && c.stream.Incoming() == rest
    ensures (c.waiting, c.log) == DeliverAll(c.decodes, old(c.waiting), old(c.log), rs)
  {
    r := Consumed;
    var k := 0;
    ghost var final := DeliverAll(c.decodes, c.waiting, c.log, rs);
    assert rs[0..] == rs;
    while k < n
      invariant k <= n && c.Valid() && Calm(c.stream.inner.rscript) && r == Consumed
      invariant c.stream.Incoming() == WireAt(rs, k, rest) && NextIs(c.decodes, c.waiting, c.log, rs, k, final)
    {
      NextStep(c.decodes, c.waiting, c.log, rs, k, rest, final);
      r := ReadNext(c, rs[k], WireAt(rs, k + 1, rest));
      k := k + 1;
    }
    assert rs[k..] == [] && WireAt(rs, k, rest) == rest;
  }

  /** A connection on which only these bytes arrive. */
  method Receiving(bytes: Bytes, script: seq<IoEvent>, bufSize: nat, decodes: (nat, Bytes) -> bool,
                   waiting: map<nat, ClientTask>)
    returns (c: Connection)
    requires bufSize > 0
    ensures c.Valid() && fresh(c) && fresh(c.stream) && fresh(c.stream.inner) && fresh(c.stream.rd)
            && fresh(c.stream.rd.buf)
    ensures c.stream.Incoming() == bytes && c.stream.inner.rscript == script && c.stream.rd.pos == c.stream.rd.cap
    ensures c.decodes == decodes && c.waiting == waiting && c.log == []
  {
    var socket := new Pipe(bytes, script, []);
    var stream := new BufStream(socket, bufSize);
    c := new Connection(stream, decodes, waiting);
  }

  /** One read of a response nobody waits for. */
  method ReadUnclaimed(resp: Response, bufSize: nat, decodes: (nat, Bytes) -> bool)
    returns (r: RespRead, ghost left: Bytes)
    requires ResponseOk(resp) && bufSize > 0
    ensures r.Read? && SkipsTo(ResponseHead(resp), ResponseBody(resp), r.result, left)
  {
    assert ResponseFrame(resp) + [] == ResponseFrame(resp) && ResponseBody(resp) + [] == ResponseBody(resp);
    var c := Receiving(ResponseFrame(resp), [], bufSize, decodes, map[]);
    assert Begins(c.stream.Incoming(), resp, []);
    r := c.ReadResp(false);
    left := c.stream.Incoming();
  }

  /** A well-formed response nobody waits for, one byte too long to be skipped: the read fails. */
  method UnskippableResponse(bufSize: nat, decodes: (nat, Bytes) -> bool) returns (resp: Response, r: RespRead)
    requires bufSize > 0
    ensures ResponseOk(resp) && |ResponseBody(resp)| == I32_MAX + 1 && r.Read? && r != Read(Consumed)
  {
    resp := Reply(1, seq(I32_MAX + 1, _ => 0), []);
    ghost var left;
    r, left := ReadUnclaimed(resp, bufSize, decodes);
  }

  /** A well-formed response whose length wraps around: the read reports success after one byte of the
      body, away from the frame boundary. */
  method WrappedResponse(bufSize: nat, decodes: (nat, Bytes) -> bool)
    returns (resp: Response, r: RespRead, ghost left: Bytes)
    requires bufSize > 0
    ensures ResponseOk(resp) && r == Read(Consumed) && |ResponseBody(resp)| > 1 && left == ResponseBody(resp)[1..]
  {
    resp := Reply(1, seq(U32 - 1, _ => 0), [0, 0]);
    r, left := ReadUnclaimed(resp, bufSize, decodes);
  }

  /** A header for a waiting task with a flag no server sends. */
  method UnknownFlagPanics(bufSize: nat, decodes: (nat, Bytes) -> bool, task: ClientTask) returns (r: RespRead)
    requires bufSize > 0
    ensures r == Read(Panic)
  {
    var h := RespHead(3, 0, 1, 0);
    RespHeadRoundTrip(h);
    var bytes := RespHeadBytes(h);
    assert bytes[..RESP_HEAD_LEN] == bytes;
    var c := Receiving(bytes, [], bufSize, decodes, map[1 := task]);
    assert HeadPanics(c.stream.Incoming(), c.waiting);
    r := c.ReadResp(false);
  }

  /** Closing in the middle of a header loses the frame: for any response with a body shorter than the
      part of the header that had arrived, the next read fails and the task is never answered. */
  method CloseMidHeader(resp: Response, k: nat, bufSize: nat, decodes: (nat, Bytes) -> bool,
                        waiting: map<nat, ClientTask>)
    returns (first: RespRead, second: RespRead, left: map<nat, ClientTask>, log: seq<Outcome>)
    requires ResponseOk(resp) && |ResponseBody(resp)| < k < RESP_HEAD_LEN && bufSize > 0
    ensures first == Closed(k) && second == Read(Failing(IO)) && left == waiting && log == []
  {
    var script := seq(k, _ => Give(1)) + [Stall];
    assert Trickles(script, k);
    var c := Receiving(ResponseFrame(resp), script, bufSize, decodes, waiting);
    first := c.ReadResp(true, k);
    assert c.stream.inner.rscript == [];
    second := c.ReadResp(false);
    left, log := c.waiting, c.log;
  }
}
