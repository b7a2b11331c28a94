/** Whole messages on the wire: how a request or a response is laid out, how it is encoded into a
    reused buffer, and what a reader makes of the bytes. */
module Frames {
  import opened Prelude
  import opened Errors
  import opened Wire

  // ---------- Requests ----------

  datatype Request = Request(seqNo: nat, clientId: nat, action: RpcAction, msg: Bytes, blob: Option<Bytes>)

  function BlobBytes(b: Option<Bytes>): Bytes {
    if b.Some? then b.value else []
  }

  function ActionBytes(a: RpcAction): Bytes {
    if a.Str? then a.str else []
  }

  predicate RequestTyped(r: Request) {
    r.seqNo < U64 && r.clientId < U64 && ActionTyped(r.action)
  }

  /** Lengths the header can carry. */
  predicate RequestOk(r: Request) {
    RequestTyped(r) && ActionFits(r.action) && |r.msg| < U32 && |BlobBytes(r.blob)| <= I32_MAX
  }

  function RequestHead(r: Request): ReqHead
    requires RequestTyped(r)
  {
    ReqHead(ActionField(r.action), r.seqNo, r.clientId, |r.msg|, |BlobBytes(r.blob)|)
  }

  /** Header, action and message: what `ReqHead::encode` leaves in the buffer. */
  function RequestBuf(r: Request): Bytes
    requires RequestTyped(r)
  {
    ReqHeadBytes(RequestHead(r)) + (ActionBytes(r.action) + r.msg)
  }

  function RequestFrame(r: Request): Bytes
    requires RequestTyped(r)
  {
    RequestBuf(r) + BlobBytes(r.blob)
  }

  /** The request as the server sees it. */
  datatype SvrReq = SvrReq(seqNo: nat, action: RpcAction, msg: Bytes, blob: Option<Bytes>)

  /** An empty blob leaves no trace on the wire. */
  function Received(r: Request): SvrReq {
    SvrReq(r.seqNo, r.action, r.msg, if BlobBytes(r.blob) == [] then None else r.blob)
  }

  /** What a reader finds at the head of a byte stream that ends after `b`. */
  datatype Parsed<+T> = Found(value: T, used: nat) | Fails(error: RpcIntErr)

  function ParseAction(field: nat, b: Bytes): (p: Parsed<RpcAction>)
    requires field < U32
    ensures p.Found? ==> p.used <= |b|
  {
    match GetAction(field)
    case IsNum(n) => Found(Num(n), 0)
    case HasLen(n) =>
      if |b| < n then Fails(IO) else if !Utf8(b[..n]) then Fails(Decode) else Found(Str(b[..n]), n)
  }

  /** Message and blob. */
  function ParseTail(h: ReqHead, action: RpcAction, b: Bytes): (p: Parsed<SvrReq>)
    requires ReqHeadFits(h)
    ensures p.Found? ==> p.used <= |b|
  {
    var m := h.msgLen;
    if |b| < m then Fails(IO)
    else if AsI32(h.blobLen) <= 0 then Found(SvrReq(h.seqNo, action, b[..m], None), m)
    else if |b| < m + h.blobLen then Fails(IO)
    else Found(SvrReq(h.seqNo, action, b[..m], Some(b[m..m + h.blobLen])), m + h.blobLen)
  }

  function ParseReqBody(h: ReqHead, b: Bytes): (p: Parsed<SvrReq>)
    requires ReqHeadFits(h)
    ensures p.Found? ==> p.used <= |b|
  {
    var a := ParseAction(h.action, b);
    if a.Fails? then Fails(a.error)
    else
      var p := ParseTail(h, a.value, b[a.used..]);
      if p.Found? then Found(p.value, a.used + p.used) else p
  }

  function ParseRequest(b: Bytes): (p: Parsed<SvrReq>)
    ensures p.Found? ==> REQ_HEAD_LEN <= p.used <= |b|
  {
    if |b| < REQ_HEAD_LEN then Fails(IO)
    else
      var h := DecodeReqHead(b[..REQ_HEAD_LEN]);
      if h.Bad? then Fails(Decode)
      else
        var p := ParseReqBody(h.head, b[REQ_HEAD_LEN..]);
        if p.Found? then Found(p.value, REQ_HEAD_LEN + p.used) else p
  }

  lemma BodyParses(r: Request, rest: Bytes)
    requires RequestOk(r)
    ensures var body := (ActionBytes(r.action) + r.msg) + BlobBytes(r.blob);
            ParseReqBody(RequestHead(r), body + rest) == Found(Received(r), |body|)
  {
    var a, m, n := ActionBytes(r.action), r.msg, BlobBytes(r.blob);
    var b := ((a + m) + n) + rest;
    ActionFieldExact(r.action);
    assert b[..|a|] == a;
    var c := b[|a|..];
    assert c[..|m|] == m;
    assert c[|m|..|m| + |n|] == n;
  }

  lemma Halves(a: Bytes, b: Bytes)
    ensures (a + b)[..|a|] == a && (a + b)[|a|..] == b
  {
  }

  /** A request is read back as it was written, whatever follows it, and the reader stops exactly
      behind it. */
  lemma RequestParses(r: Request, rest: Bytes)
    requires RequestOk(r)
    ensures ParseRequest(RequestFrame(r) + rest) == Found(Received(r), |RequestFrame(r)|)
  {
    var head := ReqHeadBytes(RequestHead(r));
    var body := (ActionBytes(r.action) + r.msg) + BlobBytes(r.blob);
    var b := RequestFrame(r) + rest;
    Assoc(head, ActionBytes(r.action) + r.msg, BlobBytes(r.blob));
    Assoc(head, body, rest);
    Halves(head, body + rest);
    ReqHeadRoundTrip(RequestHead(r));
    BodyParses(r, rest);
  }

  /** Every byte of a request: the header with its fields at their places, the action, the message,
      the blob. */
  lemma RequestLayout(r: Request)
    requires RequestOk(r)
    ensures var b, n := RequestFrame(r), |ActionBytes(r.action)|;
            && |b| == 32 + n + |r.msg| + |BlobBytes(r.blob)|
            && b[0..4] == [0x25, 0x4d, 1, 0]
            && b[4..8] == Le(if r.action.Num? then r.action.num else 0x8000_0000 + |r.action.str|, 4)
            && b[8..16] == Le(r.seqNo, 8) && b[16..24] == Le(r.clientId, 8)
            && b[24..28] == Le(|r.msg|, 4) && b[28..32] == Le(|BlobBytes(r.blob)|, 4)
            && b[32..32 + n] == ActionBytes(r.action) && b[32 + n..32 + n + |r.msg|] == r.msg
            && b[32 + n + |r.msg|..] == BlobBytes(r.blob)
  {
    var b, head := RequestFrame(r), ReqHeadBytes(RequestHead(r));
    var a, m, n := ActionBytes(r.action), r.msg, BlobBytes(r.blob);
    RequestHeadLayout(r);
    Assoc(head, a + m, n);
    Front(head, a + m + n, b);
    Parts(head, a, m, n);
  }

  lemma RequestHeadLayout(r: Request)
    requires RequestOk(r)
    ensures var b := ReqHeadBytes(RequestHead(r));
            && b[0..4] == [0x25, 0x4d, 1, 0]
            && b[4..8] == Le(if r.action.Num? then r.action.num else 0x8000_0000 + |r.action.str|, 4)
            && b[8..16] == Le(r.seqNo, 8) && b[16..24] == Le(r.clientId, 8)
            && b[24..28] == Le(|r.msg|, 4) && b[28..32] == Le(|BlobBytes(r.blob)|, 4)
  {
    var b := ReqHeadBytes(RequestHead(r));
    ReqHeadFields(RequestHead(r));
    MagicBytes();
    assert b[0..4] == b[0..2] + [b[2]] + [b[3]];
    if r.action.Str? { SmallMod(|r.action.str|, U32_HIGH_MASK); }
  }

  lemma Parts(h: Bytes, a: Bytes, m: Bytes, n: Bytes)
    ensures var b, i, j := (h + (a + m)) + n, |h| + |a|, |h| + |a| + |m|;
            |b| == j + |n| && b[|h|..i] == a && b[i..j] == m && b[j..] == n
  {
  }

  lemma SmallMod(n: nat, m: nat)
    requires n < m
    ensures n % m == n
  {
    DivModUnique(n, m, 0, n);
  }

  /** What a slice of the whole is, if it lies in the first part. */
  lemma Front(a: Bytes, b: Bytes, c: Bytes)
    requires c == a + b
    ensures forall i, j :: 0 <= i <= j <= |a| ==> c[i..j] == a[i..j]
  {
  }

  /** A request that is cut short is an I/O error; another magic number or version, or an action that
      is not UTF-8, a decoding error. */
  lemma RequestRefused(b: Bytes)
    ensures |b| < 32 ==> ParseRequest(b) == Fails(IO)
    ensures |b| >= 32 && (b[0..2] != [0x25, 0x4d] || b[2] != 1) ==> ParseRequest(b) == Fails(Decode)
    ensures |b| >= 32 && b[0..2] == [0x25, 0x4d] && b[2] == 1 && UnLe(b[4..8]) >= 0x8000_0000 ==>
            var n := UnLe(b[4..8]) - 0x8000_0000;
            && (|b| < 32 + n ==> ParseRequest(b) == Fails(IO))
            && (|b| >= 32 + n && !Utf8(b[32..32 + n]) ==> ParseRequest(b) == Fails(Decode))
  {
    if |b| >= 32 {
      var head := b[..REQ_HEAD_LEN];
      ReqHeadRefused(head);
      assert head[0..2] == b[0..2] && head[4..8] == b[4..8];
      ReqFieldBounds(head);
      if UnLe(b[4..8]) >= 0x8000_0000 && |b| >= 32 + (UnLe(b[4..8]) - 0x8000_0000) {
        var n := UnLe(b[4..8]) - 0x8000_0000;
        assert b[REQ_HEAD_LEN..][..n] == b[32..32 + n];
      }
    }
  }

  predicate AllOk(rs: seq<Request>) {
    forall i :: 0 <= i < |rs| ==> RequestOk(rs[i])
  }

  /** The frames of `rs[k..]`, and of `rs[..k]`. */
  function StreamFrom(rs: seq<Request>, k: nat): Bytes
    requires AllOk(rs) && k <= |rs|
    decreases |rs| - k
  {
    if k == |rs| then [] else RequestFrame(rs[k]) + StreamFrom(rs, k + 1)
  }

  function StreamTo(rs: seq<Request>, k: nat): Bytes
    requires AllOk(rs) && k <= |rs|
  {
    if k == 0 then [] else StreamTo(rs, k - 1) + RequestFrame(rs[k - 1])
  }

  lemma Meet(done: Bytes, frame: Bytes, more: Bytes, to: Bytes, from: Bytes, all: Bytes)
    requires to == done + frame && from == frame + more && done + from == all
    ensures to + more == all
  {
    Assoc(done, frame, more);
  }

  lemma {:induction false} StreamsMeet(rs: seq<Request>, k: nat)
    requires AllOk(rs) && k <= |rs|
    ensures StreamTo(rs, k) + StreamFrom(rs, k) == StreamFrom(rs, 0)
  {
    if k == 0 {
      assert [] + StreamFrom(rs, 0) == StreamFrom(rs, 0);
    } else {
      StreamsMeet(rs, k - 1);
      Meet(StreamTo(rs, k - 1), RequestFrame(rs[k - 1]), StreamFrom(rs, k), StreamTo(rs, k), StreamFrom(rs, k - 1),
           StreamFrom(rs, 0));
    }
  }

  /** `b` with the bytes from `at` on overwritten by `v`. */
  function Put(b: Bytes, at: nat, v: Bytes): (c: Bytes)
    requires at + |v| <= |b|
    ensures |c| == |b|
  {
    b[..at] + v + b[at + |v|..]
  }

  /** `ReqHead::_write_head`: field by field over whatever the buffer held. */
  method WriteReqHead(buf: Bytes, h: ReqHead) returns (out: Bytes)
    requires |buf| >= REQ_HEAD_LEN
    ensures out == ReqHeadBytes(h) + buf[REQ_HEAD_LEN..]
  {
    var fields := [Le(RPC_MAGIC, 2), [RPC_VERSION_1], [0], Le(h.action, 4), Le(h.seqNo, 8), Le(h.clientId, 8),
                   Le(h.msgLen, 4), Le(h.blobLen, 4)];
    ReqFieldsJoin(h, fields);
    out := PutFields(buf, fields);
  }

  function Offset(fields: seq<Bytes>, k: nat): nat
    requires k <= |fields|
  {
    if k == 0 then 0 else Offset(fields, k - 1) + |fields[k - 1]|
  }

  function Joined(fields: seq<Bytes>, k: nat): (b: Bytes)
    requires k <= |fields|
    ensures |b| == Offset(fields, k)
  {
    if k == 0 then [] else Joined(fields, k - 1) + fields[k - 1]
  }

  lemma ReqFieldsJoin(h: ReqHead, fields: seq<Bytes>)
    requires fields == [Le(RPC_MAGIC, 2), [RPC_VERSION_1], [0], Le(h.action, 4), Le(h.seqNo, 8), Le(h.clientId, 8),
                        Le(h.msgLen, 4), Le(h.blobLen, 4)]
    ensures Joined(fields, 8) == ReqHeadBytes(h)
  {
    assert Joined(fields, 1) == fields[0];
    assert Joined(fields, 2) == fields[0] + fields[1];
    assert Joined(fields, 4) == fields[0] + fields[1] + fields[2] + fields[3];
    assert Joined(fields, 6) == Joined(fields, 4) + fields[4] + fields[5];
  }

  method PutFields(buf: Bytes, fields: seq<Bytes>) returns (out: Bytes)
    requires |buf| >= Offset(fields, |fields|)
    ensures out == Joined(fields, |fields|) + buf[Offset(fields, |fields|)..]
  {
    out := buf;
    var k, at := 0, 0;
    while k < |fields|
      invariant k <= |fields| && at == Offset(fields, k) && |out| == |buf|
      invariant Offset(fields, k) <= Offset(fields, |fields|)
      invariant out == Joined(fields, k) + buf[Offset(fields, k)..]
    {
      OffsetGrows(fields, k + 1);
      out := Put(out, at, fields[k]);
      at := at + |fields[k]|;
      k := k + 1;
    }
  }

  lemma {:induction false} OffsetGrows(fields: seq<Bytes>, k: nat)
    requires k <= |fields|
    ensures Offset(fields, k) <= Offset(fields, |fields|)
    decreases |fields| - k
  {
    if k < |fields| { OffsetGrows(fields, k + 1); }
  }

  /** `ReqHead::encode`. `stale` is what `set_len` exposes; `encoded` is what the task's
      encode_req appends, or None if it fails. Nothing stale survives. */
  method EncodeRequest(stale: Bytes, seqNo: nat, clientId: nat, action: RpcAction, encoded: Option<Bytes>,
                       blob: Option<Bytes>)
    returns (r: Result<Bytes, ()>)
    requires |stale| == REQ_HEAD_LEN && seqNo < U64 && clientId < U64 && ActionTyped(action)
    ensures r.Ok? <==> encoded.Some? && |encoded.value| < U32 && |BlobBytes(blob)| <= I32_MAX
    ensures r.Ok? ==> r.value == RequestBuf(Request(seqNo, clientId, action, encoded.value, blob))
  {
    var buf := stale;
    if action.Str? {
      buf := buf + action.str;
    }
    if encoded.None? { return Err(()); }
    buf := buf + encoded.value;
    if |encoded.value| > U32 - 1 { return Err(()); }
    var blobLen := if blob.Some? then |blob.value| else 0;
    if blobLen > I32_MAX { return Err(()); }
    assert buf[REQ_HEAD_LEN..] == ActionBytes(action) + encoded.value;
    buf := WriteReqHead(buf, ReqHead(ActionField(action), seqNo, clientId, |encoded.value|, blobLen));
    return Ok(buf);
  }

  // ---------- Responses ----------

  datatype Response =
    | Reply(seqNo: nat, msg: Bytes, blob: Bytes)
    | ErrnoReply(seqNo: nat, n: nat)
    | TextReply(seqNo: nat, text: Bytes)

  predicate ResponseOk(r: Response) {
    r.seqNo < U64 &&
    match r
    case Reply(_, msg, blob) => |msg| < U32 && |blob| <= I32_MAX
    case ErrnoReply(_, n) => n < U32
    case TextReply(_, text) => |text| <= I32_MAX
  }

  function ResponseHead(r: Response): (h: RespHead)
    requires ResponseOk(r)
    ensures RespHeadFits(h)
  {
    match r
    case Reply(q, msg, blob) => RespHead(0, |msg|, q, |blob|)
    case ErrnoReply(q, n) => RespHead(RESP_FLAG_HAS_ERRNO, n, q, 0)
    case TextReply(q, text) => RespHead(RESP_FLAG_HAS_ERR_STRING, 0, q, |text|)
  }

  function ResponseBody(r: Response): Bytes {
    match r
    case Reply(_, msg, blob) => msg + blob
    case ErrnoReply(_, _) => []
    case TextReply(_, text) => text
  }

  function ResponseFrame(r: Response): Bytes
    requires ResponseOk(r)
  {
    RespHeadBytes(ResponseHead(r)) + ResponseBody(r)
  }

  /** How many bytes a reader expects behind the header. */
  function BodyLen(h: RespHead): nat
    requires h.blobLen >= 0
  {
    if h.flag == 0 then h.msgLen + h.blobLen else if h.flag == RESP_FLAG_HAS_ERR_STRING then h.blobLen else 0
  }

  /** The response behind a header, given the bytes that follow it. */
  function BodyOf(h: RespHead, b: Bytes): Response
    requires RespHeadFits(h) && h.flag <= 2 && h.blobLen >= 0 && BodyLen(h) <= |b|
  {
    if h.flag == 0 then Reply(h.seqNo, b[..h.msgLen], b[h.msgLen..h.msgLen + h.blobLen])
    else if h.flag == RESP_FLAG_HAS_ERRNO then ErrnoReply(h.seqNo, h.msgLen)
    else TextReply(h.seqNo, b[..h.blobLen])
  }

  lemma ResponseParses(r: Response, rest: Bytes)
    requires ResponseOk(r)
    ensures var b := ResponseFrame(r) + rest;
            && |b| >= RESP_HEAD_LEN && DecodeRespHead(b[..RESP_HEAD_LEN]) == Head(ResponseHead(r))
            && b[RESP_HEAD_LEN..] == ResponseBody(r) + rest
            && BodyLen(ResponseHead(r)) == |ResponseBody(r)|
            && BodyOf(ResponseHead(r), ResponseBody(r) + rest) == r
  {
    var b := ResponseFrame(r) + rest;
    assert b == RespHeadBytes(ResponseHead(r)) + (ResponseBody(r) + rest);
    assert b[..RESP_HEAD_LEN] == RespHeadBytes(ResponseHead(r));
    assert b[RESP_HEAD_LEN..] == ResponseBody(r) + rest;
    RespHeadRoundTrip(ResponseHead(r));
    BodyOfFrame(r, rest);
  }

  lemma BodyOfFrame(r: Response, rest: Bytes)
    requires ResponseOk(r)
    ensures BodyLen(ResponseHead(r)) == |ResponseBody(r)|
    ensures BodyOf(ResponseHead(r), ResponseBody(r) + rest) == r
  {
    var b := ResponseBody(r) + rest;
    match r
    case Reply(_, msg, blob) =>
      assert b[..|msg|] == msg;
      assert b[|msg|..|msg| + |blob|] == blob;
    case ErrnoReply(_, _) =>
    case TextReply(_, text) => assert b[..|text|] == text;
  }

  /** Every byte of a response: the flag says which kind it is, and an errno stands in the length. */
  lemma ResponseLayout(r: Response)
    requires ResponseOk(r)
    ensures var b := ResponseFrame(r);
            && |b| == 20 + |ResponseBody(r)| && b[0..3] == [0x25, 0x4d, 1] && b[8..16] == Le(r.seqNo, 8)
            && match r
               case Reply(_, msg, blob) =>
                 && b[3] == 0 && b[4..8] == Le(|msg|, 4) && b[16..20] == Le(|blob|, 4) && b[20..] == msg + blob
               case ErrnoReply(_, n) => b[3] == 1 && b[4..8] == Le(n, 4) && b[16..20] == Le(0, 4) && b[20..] == []
               case TextReply(_, text) =>
                 b[3] == 2 && b[4..8] == Le(0, 4) && b[16..20] == Le(|text|, 4) && b[20..] == text
  {
    var b, head := ResponseFrame(r), RespHeadBytes(ResponseHead(r));
    RespHeadFields(ResponseHead(r));
    MagicBytes();
    Front(head, ResponseBody(r), b);
    assert b[3] == head[3];
  }

  /** The response whose frame these bytes are, if any, as a reader takes it. */
  function ParseResponse(b: Bytes): Option<Response> {
    if |b| < RESP_HEAD_LEN then None
    else
      var d := DecodeRespHead(b[..RESP_HEAD_LEN]);
      if d.Bad? || d.head.flag > 2 || d.head.blobLen < 0 || RESP_HEAD_LEN + BodyLen(d.head) != |b| then None
      else Some(BodyOf(d.head, b[RESP_HEAD_LEN..]))
  }

  lemma FrameParses(r: Response)
    requires ResponseOk(r)
    ensures ParseResponse(ResponseFrame(r)) == Some(r)
  {
    ResponseParses(r, []);
    assert ResponseFrame(r) + [] == ResponseFrame(r) && ResponseBody(r) + [] == ResponseBody(r);
  }

  function ResponseStream(rs: seq<Response>): Bytes
    requires forall i :: 0 <= i < |rs| ==> ResponseOk(rs[i])
  {
    if rs == [] then [] else ResponseFrame(rs[0]) + ResponseStream(rs[1..])
  }

  /** What a server task's encode_resp returns beside the bytes it appended. */
  datatype TaskReply = Fine(blob: Option<Bytes>) | Broken(err: EncodedErr)

  function ErrText(e: EncodedErr): Bytes {
    match e
    case Rpc(i) => Name(i)
    case Errno(_) => []
    case Static(s) => s
    case Buf(s) => s
  }

  /** The length is cast to i32. */
  function TextHead(seqNo: nat, text: Bytes): (h: RespHead)
    requires seqNo < U64
    ensures RespHeadFits(h)
  {
    RespHead(RESP_FLAG_HAS_ERR_STRING, 0, seqNo, AsI32(|text| % U32))
  }

  /** `RespHead::_encode_error`: the header, and behind whatever was already appended the text. */
  function ErrorBytes(seqNo: nat, appended: Bytes, e: EncodedErr): Bytes
    requires seqNo < U64 && (e.Errno? ==> e.n < U32)
  {
    match e
    case Errno(n) => RespHeadBytes(RespHead(RESP_FLAG_HAS_ERRNO, n, seqNo, 0)) + appended
    case _ => RespHeadBytes(TextHead(seqNo, ErrText(e))) + (appended + ErrText(e))
  }

  predicate TooLong(appended: Bytes, blob: Option<Bytes>) {
    |appended| >= U32 || |BlobBytes(blob)| > I32_MAX
  }

  /** `RespHead::encode` followed by the blob: everything the server writes for one task. */
  function ReplyBytes(seqNo: nat, appended: Bytes, reply: TaskReply): Bytes
    requires seqNo < U64 && (reply.Broken? && reply.err.Errno? ==> reply.err.n < U32)
  {
    match reply
    case Broken(e) => ErrorBytes(seqNo, appended, e)
    case Fine(blob) =>
      if TooLong(appended, blob) then ErrorBytes(seqNo, appended, Rpc(Encode))
      else RespHeadBytes(RespHead(0, |appended|, seqNo, |BlobBytes(blob)|)) + (appended + BlobBytes(blob))
  }

  /** The response the server means. */
  function ErrorMeant(seqNo: nat, e: EncodedErr): Response {
    if e.Errno? then ErrnoReply(seqNo, e.n) else TextReply(seqNo, ErrText(e))
  }

  function Meant(seqNo: nat, appended: Bytes, reply: TaskReply): Response {
    match reply
    case Broken(e) => ErrorMeant(seqNo, e)
    case Fine(blob) =>
      if TooLong(appended, blob) then ErrorMeant(seqNo, Rpc(Encode)) else Reply(seqNo, appended, BlobBytes(blob))
  }

  ghost predicate IsFrameOf(b: Bytes, r: Response) {
    ResponseOk(r) && b == ResponseFrame(r)
  }

  lemma ErrorBytesLength(seqNo: nat, appended: Bytes, e: EncodedErr)
    requires seqNo < U64 && (e.Errno? ==> e.n < U32)
    ensures |ErrorBytes(seqNo, appended, e)| == RESP_HEAD_LEN + |appended| + |ErrText(e)|
    ensures |ResponseBody(ErrorMeant(seqNo, e))| == |ErrText(e)|
  {
  }

  lemma CleanErrorBytes(seqNo: nat, e: EncodedErr)
    requires seqNo < U64 && (e.Errno? ==> e.n < U32) && |ErrText(e)| <= I32_MAX
    ensures ErrorBytes(seqNo, [], e) == ResponseFrame(ErrorMeant(seqNo, e))
  {
    var text := ErrText(e);
    assert |text| % U32 == |text|;
    assert [] + text == text;
  }

  lemma ErrorBytesExact(seqNo: nat, appended: Bytes, e: EncodedErr)
    requires seqNo < U64 && (e.Errno? ==> e.n < U32)
    ensures IsFrameOf(ErrorBytes(seqNo, appended, e), ErrorMeant(seqNo, e))
            <==> appended == [] && |ErrText(e)| <= I32_MAX
  {
    ErrorBytesLength(seqNo, appended, e);
    if |ErrText(e)| <= I32_MAX { CleanErrorBytes(seqNo, e); }
  }

  /** The bytes are the frame of the response meant exactly if nothing was appended before an
      error and the error text fits: message bytes already in the buffer are not taken back. */
  lemma ReplyBytesExact(seqNo: nat, appended: Bytes, reply: TaskReply)
    requires seqNo < U64 && (reply.Broken? && reply.err.Errno? ==> reply.err.n < U32)
    ensures IsFrameOf(ReplyBytes(seqNo, appended, reply), Meant(seqNo, appended, reply))
            <==> match reply
                 case Fine(blob) => !TooLong(appended, blob) || appended == []
                 case Broken(e) => appended == [] && |ErrText(e)| <= I32_MAX
  {
    match reply
    case Broken(e) => ErrorBytesExact(seqNo, appended, e);
    case Fine(blob) =>
      NameIsReserved(Encode);
      ErrorBytesExact(seqNo, appended, Rpc(Encode));
  }

  /** A header with more behind it than it announces is no frame. */
  lemma OddLength(h: RespHead, body: Bytes)
    requires RespHeadFits(h) && (h.flag > 2 || h.blobLen < 0 || BodyLen(h) != |body|)
    ensures ParseResponse(RespHeadBytes(h) + body) == None
  {
    Halves(RespHeadBytes(h), body);
    RespHeadRoundTrip(h);
  }

  lemma ErrorParses(seqNo: nat, appended: Bytes, e: EncodedErr)
    requires seqNo < U64 && (e.Errno? ==> e.n < U32)
    ensures ParseResponse(ErrorBytes(seqNo, appended, e))
            == if appended == [] && |ErrText(e)| <= I32_MAX then Some(ErrorMeant(seqNo, e)) else None
  {
    if appended == [] && |ErrText(e)| <= I32_MAX {
      CleanErrorBytes(seqNo, e);
      FrameParses(ErrorMeant(seqNo, e));
    } else if e.Errno? {
      OddLength(RespHead(RESP_FLAG_HAS_ERRNO, e.n, seqNo, 0), appended);
    } else {
      OddLength(TextHead(seqNo, ErrText(e)), appended + ErrText(e));
    }
  }

  /** What a reader makes of the bytes of a reply: the response meant, if they are its frame, and
      nothing else. */
  lemma ReplyParses(seqNo: nat, appended: Bytes, reply: TaskReply)
    requires seqNo < U64 && (reply.Broken? && reply.err.Errno? ==> reply.err.n < U32)
    ensures ParseResponse(ReplyBytes(seqNo, appended, reply))
            == if IsFrameOf(ReplyBytes(seqNo, appended, reply), Meant(seqNo, appended, reply))
               then Some(Meant(seqNo, appended, reply)) else None
  {
    ReplyBytesExact(seqNo, appended, reply);
    match reply
    case Broken(e) => ErrorParses(seqNo, appended, e);
    case Fine(blob) =>
      if TooLong(appended, blob) {
        NameIsReserved(Encode);
        ErrorParses(seqNo, appended, Rpc(Encode));
      } else {
        FrameParses(Meant(seqNo, appended, reply));
      }
  }

  /** A response that loses the reader: an error after one message byte was appended. */
  lemma PartialMessageBreaksFrame()
    ensures !IsFrameOf(ReplyBytes(1, [7], Broken(Rpc(Encode))), Meant(1, [7], Broken(Rpc(Encode))))
  {
    ReplyBytesExact(1, [7], Broken(Rpc(Encode)));
  }

  /** `RespHead::_write_head`. */
  method WriteRespHead(buf: Bytes, h: RespHead) returns (out: Bytes)
    requires |buf| >= RESP_HEAD_LEN && RespHeadFits(h)
    ensures out == RespHeadBytes(h) + buf[RESP_HEAD_LEN..]
  {
    var fields := [Le(RPC_MAGIC, 2), [RPC_VERSION_1], [h.flag],
                   Le(h.msgLen, 4), Le(h.seqNo, 8), Le(AsU32(h.blobLen), 4)];
    RespFieldsJoin(h, fields);
    out := PutFields(buf, fields);
  }

  lemma RespFieldsJoin(h: RespHead, fields: seq<Bytes>)
    requires RespHeadFits(h)
    requires fields == [Le(RPC_MAGIC, 2), [RPC_VERSION_1], [h.flag],
                        Le(h.msgLen, 4), Le(h.seqNo, 8), Le(AsU32(h.blobLen), 4)]
    ensures Joined(fields, 6) == RespHeadBytes(h)
  {
    assert Joined(fields, 1) == fields[0];
    assert Joined(fields, 2) == fields[0] + fields[1];
    assert Joined(fields, 4) == fields[0] + fields[1] + fields[2] + fields[3];
  }

  /** `_encode_error` on a buffer that holds a header's room and what was already appended. */
  method EncodeError(buf: Bytes, seqNo: nat, e: EncodedErr) returns (out: Bytes)
    requires |buf| >= RESP_HEAD_LEN && seqNo < U64 && (e.Errno? ==> e.n < U32)
    ensures out == ErrorBytes(seqNo, buf[RESP_HEAD_LEN..], e)
  {
    if e.Errno? {
      out := WriteRespHead(buf, RespHead(RESP_FLAG_HAS_ERRNO, e.n, seqNo, 0));
      return;
    }
    var text := ErrText(e);
    out := WriteRespHead(buf, TextHead(seqNo, text));
    Assoc(RespHeadBytes(TextHead(seqNo, text)), buf[RESP_HEAD_LEN..], text);
    out := out + text;
  }

  /** `RespHead::encode`: `stale` is what `set_len` exposes, `appended` what the task's encode_resp
      writes. The buffer and then the returned blob are what goes out. */
  method EncodeResponse(stale: Bytes, seqNo: nat, appended: Bytes, reply: TaskReply)
    returns (buf: Bytes, blob: Option<Bytes>)
    requires |stale| == RESP_HEAD_LEN && seqNo < U64 && (reply.Broken? && reply.err.Errno? ==> reply.err.n < U32)
    ensures buf + BlobBytes(blob) == ReplyBytes(seqNo, appended, reply)
  {
    buf, blob := stale + appended, None;
    assert buf[RESP_HEAD_LEN..] == appended;
    match reply {
      case Broken(e) => buf := EncodeError(buf, seqNo, e);
      case Fine(b) =>
        if |appended| > U32 - 1 || (b.Some? && |b.value| > I32_MAX) {
          buf := EncodeError(buf, seqNo, Rpc(Encode));
        } else {
          blob := b;
          buf := WriteRespHead(buf, RespHead(0, |appended|, seqNo, |BlobBytes(b)|));
          Assoc(RespHeadBytes(RespHead(0, |appended|, seqNo, |BlobBytes(b)|)), appended, BlobBytes(b));
        }
    }
  }
}
