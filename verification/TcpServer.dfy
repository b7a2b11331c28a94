/** The server end of a connection: reading requests and writing responses. */
module TcpServer {
  import opened Prelude
  import opened Errors
  import opened Wire
  import opened Frames
  import opened BufIo
  import TcpClient

  /** What read_req answers for a parse, with no failing read. */
  function Answer<T>(p: Parsed<T>): Result<T, RpcIntErr> {
    if p.Found? then Ok(p.value) else Err(p.error)
  }

  /** The answer when there may be no memory for a blob. */
  function Granted(p: Parsed<SvrReq>, memory: bool): Result<SvrReq, RpcIntErr> {
    if p.Found? && p.value.blob.Some? && !memory then Err(Decode) else Answer(p)
  }

  lemma DropDrop(b: Bytes, i: nat, j: nat)
    requires i + j <= |b|
    ensures b[i..][j..] == b[i + j..] && b[i..][..j] == b[i..i + j]
  {
  }

  /** What was read is what the bytes say, and it was taken from them; nothing is ever put back. */
  ghost predicate Reads<T(!new)>(p: Parsed<T>, before: Bytes, after: Bytes, r: Result<T, RpcIntErr>)
    requires p.Found? ==> p.used <= |before|
  {
    |after| <= |before| && (r.Ok? ==> p.Found? && r.value == p.value && after == before[p.used..])
  }

  /** A complete parse and the answer to it. */
  ghost predicate Fits(p: Parsed<SvrReq>, memory: bool, r: Result<SvrReq, RpcIntErr>) {
    (memory || p.Found? ==> r == Granted(p, memory)) && (p.Fails? ==> r.Err?)
  }

  /** The next `n` bytes; a stall within a frame is a failed read. */
  method Grab(s: BufStream, n: nat) returns (r: Option<Bytes>)
    requires s.Valid()
    modifies s.rd, s.rd.buf, s.inner`incoming, s.inner`rscript
    ensures s.Valid() && |s.Incoming()| <= |old(s.Incoming())|
    ensures r.Some? ==>
            n <= |old(s.Incoming())| && r.value == old(s.Incoming())[..n] && s.Incoming() == old(s.Incoming())[n..]
    ensures Calm(old(s.inner.rscript)) ==> Calm(s.inner.rscript) && (r.Some? <==> n <= |old(s.Incoming())|)
  {
    if n == 0 { return Some([]); }
    var g := s.ReadN(n);
    return if g.Ok? then Some(g.value) else None;
  }

  method ReadAction(s: BufStream, field: nat) returns (r: Result<RpcAction, RpcIntErr>)
    requires s.Valid() && field < U32
    modifies s.rd, s.rd.buf, s.inner`incoming, s.inner`rscript
    ensures s.Valid()
    ensures Reads(ParseAction(field, old(s.Incoming())), old(s.Incoming()), s.Incoming(), r)
    ensures Calm(old(s.inner.rscript)) ==> Calm(s.inner.rscript) && r == Answer(ParseAction(field, old(s.Incoming())))
    ensures r != Err(Timeout)
  {
    match GetAction(field) {
      case IsNum(n) => return Ok(Num(n));
      case HasLen(n) =>
        var g := Grab(s, n);
        if g.None? { return Err(IO); }
        if !Utf8(g.value) { return Err(Decode); }
        return Ok(Str(g.value));
    }
  }

  function ParseBlob(len: nat, b: Bytes): (p: Parsed<Option<Bytes>>)
    requires len < U32
    ensures p.Found? ==> p.used <= |b|
  {
    if AsI32(len) <= 0 then Found(None, 0)
    else if |b| < len then Fails(IO)
    else Found(Some(b[..len]), len)
  }

  lemma TailSplits(h: ReqHead, action: RpcAction, b: Bytes)
    requires ReqHeadFits(h) && h.msgLen <= |b|
    ensures var p := ParseBlob(h.blobLen, b[h.msgLen..]);
            ParseTail(h, action, b)
            == if p.Fails? then Fails(p.error)
               else Found(SvrReq(h.seqNo, action, b[..h.msgLen], p.value), h.msgLen + p.used)
  {
    if h.msgLen + h.blobLen <= |b| { DropDrop(b, h.msgLen, h.blobLen); }
  }

  method ReadBlob(s: BufStream, len: nat, memory: bool) returns (r: Result<Option<Bytes>, RpcIntErr>)
    requires s.Valid() && len < U32
    modifies s.rd, s.rd.buf, s.inner`incoming, s.inner`rscript
    ensures s.Valid()
    ensures Reads(ParseBlob(len, old(s.Incoming())), old(s.Incoming()), s.Incoming(), r)
    ensures Calm(old(s.inner.rscript)) ==>
              var p := ParseBlob(len, old(s.Incoming()));
              && Calm(s.inner.rscript) && (p.Fails? ==> r.Err?) && (p.Fails? && memory ==> r == Err(p.error))
              && (p.Found? ==> r == if p.value.Some? && !memory then Err(Decode) else Ok(p.value))
    ensures r != Err(Timeout)
  {
    var blobLen := AsI32(len);
    if blobLen <= 0 { return Ok(None); }
    if !memory { return Err(Decode); }
    var blob := Grab(s, blobLen);
    return if blob.Some? then Ok(blob) else Err(IO);
  }

  method ReadTail(s: BufStream, h: ReqHead, action: RpcAction, memory: bool) returns (r: Result<SvrReq, RpcIntErr>)
    requires s.Valid() && ReqHeadFits(h)
    modifies s.rd, s.rd.buf, s.inner`incoming, s.inner`rscript
    ensures s.Valid()
    ensures Reads(ParseTail(h, action, old(s.Incoming())), old(s.Incoming()), s.Incoming(), r)
    ensures Calm(old(s.inner.rscript)) ==>
            Calm(s.inner.rscript) && Fits(ParseTail(h, action, old(s.Incoming())), memory, r)
    ensures r != Err(Timeout)
  {
    ghost var all := s.Incoming();
    var msg := Grab(s, h.msgLen);
    if msg.None? { return Err(IO); }
    TailSplits(h, action, all);
    var blob := ReadBlob(s, h.blobLen, memory);
    if blob.Err? { return Err(blob.error); }
    DropDrop(all, h.msgLen, ParseBlob(h.blobLen, all[h.msgLen..]).used);
    assert s.Incoming() == all[ParseTail(h, action, all).used..];
    return Ok(SvrReq(h.seqNo, action, msg.value, blob.value));
  }

  lemma BodyReads(h: ReqHead, all: Bytes, mid: Bytes, after: Bytes, a: RpcAction, r: Result<SvrReq, RpcIntErr>)
    requires ReqHeadFits(h) && Reads(ParseAction(h.action, all), all, mid, Ok(a))
    requires Reads(ParseTail(h, a, mid), mid, after, r)
    ensures Reads(ParseReqBody(h, all), all, after, r)
    ensures forall memory :: Fits(ParseTail(h, a, mid), memory, r) ==> Fits(ParseReqBody(h, all), memory, r)
  {
    var used := ParseAction(h.action, all).used;
    if r.Ok? { DropDrop(all, used, ParseTail(h, a, mid).used); }
  }

  lemma HeadReads(h: ReqHead, all: Bytes, after: Bytes, r: Result<SvrReq, RpcIntErr>)
    requires |all| >= REQ_HEAD_LEN && DecodeReqHead(all[..REQ_HEAD_LEN]) == Head(h)
    requires Reads(ParseReqBody(h, all[REQ_HEAD_LEN..]), all[REQ_HEAD_LEN..], after, r)
    ensures Reads(ParseRequest(all), all, after, r) && |after| <= |all| - REQ_HEAD_LEN
    ensures forall memory :: Fits(ParseReqBody(h, all[REQ_HEAD_LEN..]), memory, r) ==>
            Fits(ParseRequest(all), memory, r)
  {
    if r.Ok? { DropDrop(all, REQ_HEAD_LEN, ParseReqBody(h, all[REQ_HEAD_LEN..]).used); }
  }

  method ReadBody(s: BufStream, h: ReqHead, memory: bool) returns (r: Result<SvrReq, RpcIntErr>)
    requires s.Valid() && ReqHeadFits(h)
    modifies s.rd, s.rd.buf, s.inner`incoming, s.inner`rscript
    ensures s.Valid()
    ensures Reads(ParseReqBody(h, old(s.Incoming())), old(s.Incoming()), s.Incoming(), r)
    ensures Calm(old(s.inner.rscript)) ==> Calm(s.inner.rscript) && Fits(ParseReqBody(h, old(s.Incoming())), memory, r)
    ensures r != Err(Timeout)
  {
    ghost var all := s.Incoming();
    var a := ReadAction(s, h.action);
    if a.Err? { return Err(a.error); }
    ghost var mid := s.Incoming();
    r := ReadTail(s, h, a.value, memory);
    BodyReads(h, all, mid, s.Incoming(), a.value, r);
  }

  /** read_req: what it returns, and how far it reads, is what the bytes say; Timeout exactly if the
      close channel or the idle timer ends a stall in the header. `memory` says whether a blob can be
      allocated. */
  method ReadReq(s: BufStream, memory: bool) returns (r: Result<SvrReq, RpcIntErr>)
    requires s.Valid()
    modifies s.rd, s.rd.buf, s.inner`incoming, s.inner`rscript
    ensures s.Valid()
    ensures Reads(ParseRequest(old(s.Incoming())), old(s.Incoming()), s.Incoming(), r)
    ensures Calm(old(s.inner.rscript)) ==> Calm(s.inner.rscript) && Fits(ParseRequest(old(s.Incoming())), memory, r)
    ensures var p := ParseRequest(old(s.Incoming()));
            Calm(old(s.inner.rscript)) && p.Found? ==>
              r == if p.value.blob.Some? && !memory then Err(Decode) else Ok(p.value)
    ensures var p := ParseRequest(old(s.Incoming()));
            Calm(old(s.inner.rscript)) && p.Fails? ==> r.Err? && (memory ==> r == Err(p.error))
    ensures r == Err(Timeout) <==> Stalled(old(s.inner.rscript), s.inner.rscript)
                                   && |old(s.Incoming())| - |s.Incoming()| < REQ_HEAD_LEN
  {
    ghost var all := s.Incoming();
    var g := s.ReadN(REQ_HEAD_LEN);
    if g.Err? { return Err(if g.error.Cancelled? then Timeout else IO); }
    var d := DecodeReqHead(g.value);
    if d.Bad? { return Err(Decode); }
    r := ReadBody(s, d.head, memory);
    HeadReads(d.head, all, s.Incoming(), r);
  }

  method WriteBoth(s: BufStream, buf: Bytes, blob: Option<Bytes>) returns (r: Result<(), IoError>)
    requires s.Valid()
    modifies s.wr, s.wr.buf, s.inner`outgoing, s.inner`wscript
    ensures s.Valid()
    ensures r.Ok? ==> s.Accepted() == old(s.Accepted()) + (buf + BlobBytes(blob))
    ensures Lively(old(s.inner.wscript)) ==> Lively(s.inner.wscript) && r.Ok?
  {
    ghost var before := s.Accepted();
    r := s.WriteAll(buf);
    if r.Err? { return; }
    if blob.Some? { r := s.WriteAll(blob.value); }
    Assoc(before, buf, BlobBytes(blob));
  }

  /** write_resp: header, message and blob of one finished task. */
  method WriteResp(s: BufStream, stale: Bytes, seqNo: nat, appended: Bytes, reply: TaskReply)
    returns (r: Result<(), IoError>)
    requires s.Valid()
    requires |stale| == RESP_HEAD_LEN && seqNo < U64 && (reply.Broken? && reply.err.Errno? ==> reply.err.n < U32)
    modifies s.wr, s.wr.buf, s.inner`outgoing, s.inner`wscript
    ensures s.Valid()
    ensures r.Ok? ==> s.Accepted() == old(s.Accepted()) + ReplyBytes(seqNo, appended, reply)
    ensures Lively(old(s.inner.wscript)) ==> Lively(s.inner.wscript) && r.Ok?
  {
    var buf, blob := EncodeResponse(stale, seqNo, appended, reply);
    r := WriteBoth(s, buf, blob);
  }

  // ---------- Requests through both buffers ----------

  method SendOne(c: TcpClient.Connection, q: Request, needFlush: bool, stale: Bytes) returns (r: Result<(), IoError>)
    requires c.Valid() && |stale| == REQ_HEAD_LEN && RequestOk(q)
    modifies c.stream.wr, c.stream.wr.buf, c.stream.inner`outgoing, c.stream.inner`wscript
    ensures c.Valid()
    ensures r.Ok? ==> c.stream.Accepted() == old(c.stream.Accepted()) + RequestFrame(q)
    ensures Lively(old(c.stream.inner.wscript)) ==> Lively(c.stream.inner.wscript) && r.Ok?
  {
    var e := EncodeRequest(stale, q.seqNo, q.clientId, q.action, Some(q.msg), q.blob);
    r := c.WriteReq(e.value, q.blob, needFlush);
  }

  /** The client writes every request, some with a flush, then flushes. */
  method SendAll(c: TcpClient.Connection, rs: seq<Request>, flushes: seq<bool>, stale: Bytes)
    returns (r: Result<(), IoError>)
    requires c.Valid() && |stale| == REQ_HEAD_LEN && |flushes| == |rs| && AllOk(rs)
    modifies c.stream.wr, c.stream.wr.buf, c.stream.inner`outgoing, c.stream.inner`wscript
    ensures c.Valid()
    ensures r.Ok? ==> c.stream.inner.outgoing == old(c.stream.Accepted()) + StreamFrom(rs, 0)
    ensures Lively(old(c.stream.inner.wscript)) ==> r.Ok?
  {
    ghost var before := c.stream.Accepted();
    var k := 0;
    while k < |rs|
      invariant k <= |rs| && c.Valid() && c.stream.Accepted() == before + StreamTo(rs, k)
      invariant Lively(old(c.stream.inner.wscript)) ==> Lively(c.stream.inner.wscript)
    {
      var w := SendOne(c, rs[k], flushes[k], stale);
      if w.Err? { return w; }
      Assoc(before, StreamTo(rs, k), RequestFrame(rs[k]));
      k := k + 1;
    }
    StreamsMeet(rs, k);
    assert StreamTo(rs, k) == StreamFrom(rs, 0);
    r := c.stream.Flush();
  }

  method ReceiveOne(s: BufStream, ghost q: Request, ghost rest: Bytes) returns (got: SvrReq)
    requires s.Valid() && Calm(s.inner.rscript) && RequestOk(q) && s.Incoming() == RequestFrame(q) + rest
    modifies s.rd, s.rd.buf, s.inner`incoming, s.inner`rscript
    ensures s.Valid() && Calm(s.inner.rscript) && s.Incoming() == rest && got == Received(q)
  {
    RequestParses(q, rest);
    assert (RequestFrame(q) + rest)[|RequestFrame(q)|..] == rest;
    var g := ReadReq(s, true);
    got := g.value;
  }

  method ReceiveAll(s: BufStream, n: nat, ghost rs: seq<Request>, ghost rest: Bytes) returns (got: seq<SvrReq>)
    requires s.Valid() && n == |rs| && Calm(s.inner.rscript) && AllOk(rs)
    requires s.Incoming() == StreamFrom(rs, 0) + rest
    modifies s.rd, s.rd.buf, s.inner`incoming, s.inner`rscript
    ensures s.Valid() && s.Incoming() == rest
    ensures |got| == n && forall i :: 0 <= i < n ==> got[i] == Received(rs[i])
  {
    got := [];
    var k := 0;
    while k < n
      invariant k <= n && s.Valid() && Calm(s.inner.rscript) && |got| == k
      invariant s.Incoming() == StreamFrom(rs, k) + rest
      invariant forall i :: 0 <= i < k ==> got[i] == Received(rs[i])
    {
      Assoc(RequestFrame(rs[k]), StreamFrom(rs, k + 1), rest);
      var g := ReceiveOne(s, rs[k], StreamFrom(rs, k + 1) + rest);
      got := got + [g];
      k := k + 1;
    }
  }

  /** The same number, action and message, and the same blob unless it is empty. */
  predicate AsSent(q: SvrReq, r: Request) {
    && q.seqNo == r.seqNo && q.action == r.action && q.msg == r.msg
    && BlobBytes(q.blob) == BlobBytes(r.blob) && q.blob != Some([])
  }

  lemma ReceivedAsSent(r: Request)
    ensures AsSent(Received(r), r)
  {
  }

  /** Any requests, cut up in any way by either socket and any buffer sizes, arrive as the same
      requests in the same order, an empty blob as no blob. */
  method RoundTrip(rs: seq<Request>, flushes: seq<bool>, stale: Bytes, clientBuf: nat, serverBuf: nat,
                   wscript: seq<IoEvent>, rscript: seq<IoEvent>)
    returns (got: seq<SvrReq>)
    requires |stale| == REQ_HEAD_LEN && |flushes| == |rs| && clientBuf > 0 && serverBuf > 0
    requires AllOk(rs) && Lively(wscript) && Calm(rscript)
    ensures |got| == |rs| && forall i :: 0 <= i < |rs| ==> got[i] == Received(rs[i])
    ensures forall i :: 0 <= i < |rs| ==> AsSent(got[i], rs[i])
  {
    var up := new Pipe([], [], wscript);
    var cs := new BufStream(up, clientBuf);
    var c := new TcpClient.Connection(cs, (_, _) => true, map[]);
    var w := SendAll(c, rs, flushes, stale);
    assert up.outgoing == StreamFrom(rs, 0);
    var down := new Pipe(up.outgoing, rscript, []);
    var ss := new BufStream(down, serverBuf);
    assert ss.Incoming() == StreamFrom(rs, 0) + [];
    got := ReceiveAll(ss, |rs|, rs, []);
    forall i | 0 <= i < |rs| ensures AsSent(got[i], rs[i]) { ReceivedAsSent(rs[i]); }
  }
}
