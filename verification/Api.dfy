/** The typed API on top of the stream: what a service returns is what the caller gets. */
module Api {
  import opened Prelude
  import opened Errors
  import opened Wire
  import opened Frames
  import opened BufIo
  import opened Server
  import TcpClient
  import TcpServer

  /** A serializer; encoding may fail. */
  datatype Codec<!V> = Codec(encode: V -> Option<Bytes>, decode: Bytes -> Option<V>)

  /** What is assumed of every codec: it round-trips and never yields an empty message. */
  ghost predicate CodecOk<V(!new)>(c: Codec<V>) {
    forall v :: c.encode(v).Some? ==> c.encode(v).value != [] && c.decode(c.encode(v).value) == Some(v)
  }

  datatype RpcError<+E> = User(error: E) | Framework(err: RpcIntErr)

  /** What a service method returns. */
  datatype Returned<+V, +E> = Value(value: V) | Raised(error: RpcError<E>)

  /** The two forms of a user error on the wire: an errno or bytes. */
  datatype ErrForm = ErrnoForm(n: nat) | BytesForm(bytes: Bytes)

  /** `RpcErrCodec`. */
  datatype ErrCodec<!E> = ErrCodec(encode: E -> EncodedErr, decode: ErrForm -> Option<E>)

  /** A Rust String: bytes that are UTF-8. */
  type Text = b: Bytes | Utf8(b) witness []

  function DecodeText(f: ErrForm): Option<Text> {
    if f.BytesForm? && Utf8(f.bytes) then Some(f.bytes) else None
  }

  function TextCodec(): ErrCodec<Text> {
    ErrCodec((e: Text) => Buf(e), f => DecodeText(f))
  }

  function UnitCodec(): ErrCodec<()> {
    ErrCodec((e: ()) => Errno(0), f => if f == ErrnoForm(0) then Some(()) else None)
  }

  // ---------- Server side ----------

  /** `set_result`, `set_rpc_error` and `set_error`, as `encode_resp` gives them to the writer. */
  function Respond<V, E>(c: Codec<V>, ec: ErrCodec<E>, req: nat, seqNo: nat, r: Returned<V, E>): Item
  {
    match r
    case Value(v) =>
      var msg := c.encode(v);
      if msg.Some? then Item(req, seqNo, msg.value, Fine(None)) else Item(req, seqNo, [], TaskReply.Broken(Rpc(Encode)))
    case Raised(Framework(e)) => Item(req, seqNo, [], TaskReply.Broken(Rpc(e)))
    case Raised(User(e)) => Item(req, seqNo, [], TaskReply.Broken(ec.encode(e)))
  }

  // ---------- Client side ----------

  /** A caller keeps any message, reserves no blob, and leaves decoding to `process_res`. */
  function Caller(id: nat): TcpClient.ClientTask {
    TcpClient.ClientTask(id, false)
  }

  function KeepsAny(id: nat, msg: Bytes): bool {
    true
  }

  /** `process_res` on the finished task; None is its unreachable!() arm. */
  function ProcessRes<V, E>(c: Codec<V>, ec: ErrCodec<E>, default: V, o: TcpClient.Outcome): Option<Returned<V, E>> {
    match o
    case Done(_, msg, _) =>
      if msg == [] then Some(Value(default)) else
      var v := c.decode(msg);
      Some(if v.Some? then Value(v.value) else Raised(Framework(Decode)))
    case Failed(_, Rpc(e)) => Some(Raised(Framework(e)))
    case Failed(_, Errno(n)) => Some(FromForm(ec, ErrnoForm(n)))
    case Failed(_, Buf(b)) => Some(FromForm(ec, BytesForm(b)))
    case Failed(_, Static(_)) => None
  }

  function FromForm<V, E>(ec: ErrCodec<E>, f: ErrForm): Returned<V, E> {
    var e := ec.decode(f);
    if e.Some? then Raised(User(e.value)) else Raised(Framework(Decode))
  }

  // ---------- What the caller should get ----------

  /** The result itself, but for a value that cannot be encoded and for a string error that is one
      of the reserved names. */
  function Expected<V>(c: Codec<V>, r: Returned<V, Text>): Returned<V, Text> {
    match r
    case Value(v) => if c.encode(v).Some? then r else Raised(Framework(Encode))
    case Raised(User(e)) => if FromName(e).Some? then Raised(Framework(FromName(e).value)) else r
    case _ => r
  }

  /** A message whose length a header can carry. */
  predicate ValueFits<V, E>(c: Codec<V>, r: Returned<V, E>) {
    r.Value? && c.encode(r.value).Some? ==> |c.encode(r.value).value| < U32
  }

  /** Sizes a response can have. */
  predicate Sendable<V>(c: Codec<V>, r: Returned<V, Text>) {
    ValueFits(c, r) && (r.Raised? && r.error.User? ==> |r.error.error| <= I32_MAX)
  }

  lemma FromNameIsName(b: Bytes)
    requires FromName(b).Some?
    ensures b == Name(FromName(b).value)
  {
  }

  lemma TextErrorExact(text: Bytes)
    ensures Utf8(text) ==>
            TcpClient.TextError(text) == if FromName(text).Some? then Rpc(FromName(text).value) else Buf(text)
    ensures forall e :: text == Name(e) ==> TcpClient.TextError(text) == Rpc(e)
  {
    if FromName(text).Some? {
      FromNameIsName(text);
      NameIsReserved(FromName(text).value);
    }
    forall e | text == Name(e) ensures TcpClient.TextError(text) == Rpc(e) {
      NameIsReserved(e);
      NameRoundTrip(e);
    }
  }

  lemma ResponseFits<V>(c: Codec<V>, req: nat, seqNo: nat, r: Returned<V, Text>)
    requires Sendable(c, r) && seqNo < U64
    ensures Clean(Respond(c, TextCodec(), req, seqNo, r))
  {
    match r
    case Value(v) => NameIsReserved(Encode);
    case Raised(Framework(e)) => NameIsReserved(e);
    case Raised(User(e)) =>
  }

  /** What the caller gets from the bytes of a response; None if they are not a whole frame. */
  ghost function Arrives<V, E>(c: Codec<V>, ec: ErrCodec<E>, default: V, id: nat, i: Item): Option<Returned<V, E>>
    requires ItemOk(i)
  {
    var p := ParseResponse(ReplyBytes(i.seqNo, i.msg, i.reply));
    if p.None? then None else ProcessRes(c, ec, default, TcpClient.OutcomeOf(KeepsAny, Caller(id), p.value))
  }

  /** What the caller would get from the response meant. */
  ghost function AsMeant<V, E>(c: Codec<V>, ec: ErrCodec<E>, default: V, id: nat, i: Item): Option<Returned<V, E>> {
    ProcessRes(c, ec, default, TcpClient.OutcomeOf(KeepsAny, Caller(id), Meant(i.seqNo, i.msg, i.reply)))
  }

  lemma ArrivesExact<V, E>(c: Codec<V>, ec: ErrCodec<E>, default: V, id: nat, i: Item)
    requires ItemOk(i)
    ensures Arrives(c, ec, default, id, i)
            == if Clean(i) then AsMeant(c, ec, default, id, i) else None
  {
    ReplyParses(i.seqNo, i.msg, i.reply);
    ReplyBytesExact(i.seqNo, i.msg, i.reply);
  }

  lemma MeantText<V(!new)>(c: Codec<V>, default: V, id: nat, req: nat, seqNo: nat, r: Returned<V, Text>)
    requires CodecOk(c) && ValueFits(c, r)
    ensures var i := Respond(c, TextCodec(), req, seqNo, r);
            AsMeant(c, TextCodec(), default, id, i) == Some(Expected(c, r))
  {
    match r
    case Value(v) => TextErrorExact(Name(Encode));
    case Raised(Framework(e)) => TextErrorExact(Name(e));
    case Raised(User(e)) => TextErrorExact(e);
  }

  /** The result round trip with string errors, from the setters through the bytes to the caller. */
  lemma TextRoundTrip<V(!new)>(c: Codec<V>, default: V, id: nat, req: nat, seqNo: nat, r: Returned<V, Text>)
    requires CodecOk(c) && Sendable(c, r) && seqNo < U64
    ensures Arrives(c, TextCodec(), default, id, Respond(c, TextCodec(), req, seqNo, r)) == Some(Expected(c, r))
  {
    ResponseFits(c, req, seqNo, r);
    ArrivesExact(c, TextCodec(), default, id, Respond(c, TextCodec(), req, seqNo, r));
    MeantText(c, default, id, req, seqNo, r);
  }

  /** A returned value or error that the bytes can carry and that is not mistaken for another. */
  ghost predicate Survives<V>(c: Codec<V>, r: Returned<V, Text>) {
    match r
    case Value(v) => c.encode(v).Some? && |c.encode(v).value| < U32
    case Raised(User(e)) => |e| <= I32_MAX && forall i :: e != Name(i)
    case Raised(Framework(_)) => true
  }

  lemma ExpectedExact<V>(c: Codec<V>, r: Returned<V, Text>)
    requires Sendable(c, r)
    ensures Expected(c, r) == r <==> Survives(c, r)
  {
    if r.Raised? && r.error.User? {
      var e := r.error.error;
      if FromName(e).Some? { FromNameIsName(e); }
      forall i | e == Name(i) ensures FromName(e).Some? { NameRoundTrip(i); }
    }
  }

  /** The caller gets exactly what the service returned if and only if a returned value can be
      encoded in less than 2^32 bytes, and a returned string has at most i32::MAX bytes and is not a
      reserved name. */
  lemma TextRoundTripExact<V(!new)>(c: Codec<V>, default: V, id: nat, req: nat, seqNo: nat, r: Returned<V, Text>)
    requires CodecOk(c) && seqNo < U64
    ensures Arrives(c, TextCodec(), default, id, Respond(c, TextCodec(), req, seqNo, r)) == Some(r) <==> Survives(c, r)
  {
    if Sendable(c, r) {
      TextRoundTrip(c, default, id, req, seqNo, r);
      ExpectedExact(c, r);
    } else {
      ArrivesExact(c, TextCodec(), default, id, Respond(c, TextCodec(), req, seqNo, r));
    }
  }

  /** What arrives instead: an encoding error for a value that cannot be encoded, the internal error of
      that name for a reserved name, no frame at all for what is too long. */
  lemma InsteadArrives<V(!new)>(c: Codec<V>, default: V, id: nat, req: nat, seqNo: nat, r: Returned<V, Text>)
    requires CodecOk(c) && seqNo < U64 && !Survives(c, r)
    ensures var got := Arrives(c, TextCodec(), default, id, Respond(c, TextCodec(), req, seqNo, r));
            && (r.Value? && c.encode(r.value).None? ==> got == Some(Raised(Framework(Encode))))
            && (r.Value? && c.encode(r.value).Some? ==> got == None)
            && (r.Raised? && |r.error.error| > I32_MAX ==> got == None)
            && (forall e :: r.Raised? && r.error.error == Name(e) ==> got == Some(Raised(Framework(e))))
  {
    var i := Respond(c, TextCodec(), req, seqNo, r);
    ArrivesExact(c, TextCodec(), default, id, i);
    if Sendable(c, r) { TextRoundTrip(c, default, id, req, seqNo, r); }
    forall e | r.Raised? && r.error.error == Name(e)
      ensures Arrives(c, TextCodec(), default, id, i) == Some(Raised(Framework(e)))
    {
      NameIsReserved(e);
      NameRoundTrip(e);
    }
  }

  /** A string error that does not survive: it arrives as an internal error. */
  lemma ReservedNameTurnsInternal(c: Codec<nat>)
    requires CodecOk(c)
    ensures Utf8(Name(Timeout))
    ensures Arrives(c, TextCodec(), 0, 1, Respond(c, TextCodec(), 0, 1, Raised(User(Name(Timeout)))))
            == Some(Raised(Framework(Timeout)))
  {
    NameIsReserved(Timeout);
    NameRoundTrip(Timeout);
    TextRoundTrip(c, 0, 1, 0, 1, Raised(User(Name(Timeout))));
  }

  /** A string error one byte too long: its length is negative on the wire and the waiting client
      panics at the header. */
  method LongTextPanics(c: Codec<nat>, bufSize: nat) returns (text: Text, r: TcpClient.RespRead)
    requires bufSize > 0
    ensures |text| == I32_MAX + 1 && r == TcpClient.Read(TcpClient.Panic)
    ensures Arrives(c, TextCodec(), 0, 1, Respond(c, TextCodec(), 0, 1, Raised(User(text)))) == None
  {
    text := LongText();
    var i := Respond(c, TextCodec(), 0, 1, Raised(User(text)));
    ArrivesExact(c, TextCodec(), 0, 1, i);
    var h := TextHead(1, text);
    RespHeadRoundTrip(h);
    var bytes := ReplyBytes(i.seqNo, i.msg, i.reply);
    assert bytes == RespHeadBytes(h) + ([] + text);
    Halves(RespHeadBytes(h), [] + text);
    var conn := TcpClient.Receiving(bytes, [], bufSize, KeepsAny, map[1 := Caller(1)]);
    assert TcpClient.HeadPanics(conn.stream.Incoming(), conn.waiting);
    r := conn.ReadResp(false);
  }

  method LongText() returns (text: Text)
    ensures |text| == I32_MAX + 1
  {
    var b: Bytes := seq(I32_MAX + 1, _ => 65);
    AsciiIsUtf8(b);
    text := b;
  }

  lemma MeantUnit<V(!new)>(c: Codec<V>, default: V, id: nat, req: nat, seqNo: nat, r: Returned<V, ()>)
    requires CodecOk(c) && ValueFits(c, r)
    ensures var i := Respond(c, UnitCodec(), req, seqNo, r);
            AsMeant(c, UnitCodec(), default, id, i)
            == Some(if r.Value? && c.encode(r.value).None? then Raised(Framework(Encode)) else r)
  {
    match r
    case Value(v) => TextErrorExact(Name(Encode));
    case Raised(Framework(e)) => TextErrorExact(Name(e));
    case Raised(User(e)) => assert e == ();
  }

  lemma UnitFits<V>(c: Codec<V>, req: nat, seqNo: nat, r: Returned<V, ()>)
    requires seqNo < U64
    ensures ItemOk(Respond(c, UnitCodec(), req, seqNo, r))
    ensures Clean(Respond(c, UnitCodec(), req, seqNo, r)) <==> ValueFits(c, r)
  {
    match r
    case Value(v) => NameIsReserved(Encode);
    case Raised(Framework(e)) => NameIsReserved(e);
    case Raised(User(e)) =>
  }

  /** With the unit error the caller gets exactly what the service returned if and only if a returned
      value can be encoded in less than 2^32 bytes. */
  lemma UnitRoundTrip<V(!new)>(c: Codec<V>, default: V, id: nat, req: nat, seqNo: nat, r: Returned<V, ()>)
    requires CodecOk(c) && seqNo < U64
    ensures ItemOk(Respond(c, UnitCodec(), req, seqNo, r))
    ensures Arrives(c, UnitCodec(), default, id, Respond(c, UnitCodec(), req, seqNo, r)) == Some(r)
            <==> r.Value? ==> c.encode(r.value).Some? && |c.encode(r.value).value| < U32
  {
    UnitFits(c, req, seqNo, r);
    ArrivesExact(c, UnitCodec(), default, id, Respond(c, UnitCodec(), req, seqNo, r));
    if ValueFits(c, r) { MeantUnit(c, default, id, req, seqNo, r); }
  }

  /** The unreachable arm of `process_res` is not reached, whatever response the reader delivers. */
  lemma StaticArmUnreached<V, E>(c: Codec<V>, ec: ErrCodec<E>, default: V, decodes: (nat, Bytes) -> bool,
                                 task: TcpClient.ClientTask, r: Response)
    ensures ProcessRes(c, ec, default, TcpClient.OutcomeOf(decodes, task, r)).Some?
  {
    if r.TextReply? { assert !TcpClient.TextError(r.text).Static?; }
  }

  /** Responses of a server with another idea of the types: an empty message is the default value, one
      that does not decode, an errno or a text that is not UTF-8 is a decoding error. */
  lemma ForeignResponses<V>(c: Codec<V>, default: V, id: nat, r: Response)
    requires r.Reply? ==> r.blob == []
    ensures var got := ProcessRes(c, TextCodec(), default, TcpClient.OutcomeOf(KeepsAny, Caller(id), r));
            match r
            case Reply(_, msg, _) =>
              && (msg == [] ==> got == Some(Value(default)))
              && (msg != [] && c.decode(msg).Some? ==> got == Some(Value(c.decode(msg).value)))
              && (msg != [] && c.decode(msg).None? ==> got == Some(Raised(Framework(Decode))))
            case ErrnoReply(_, _) => got == Some(Raised(Framework(Decode)))
            case TextReply(_, text) => !Utf8(text) ==> got == Some(Raised(Framework(Decode)))
  {
    TcpClient.OutcomeMeans(KeepsAny, Caller(id), r);
    forall e | r.TextReply? && r.text == Name(e) ensures Utf8(r.text) { NameIsReserved(e); }
  }

  // ---------- Calls over the wire ----------

  /** One call: `seqNo` is the number the stream gave it. */
  datatype Call<A> = Call(seqNo: nat, service: Bytes, name: Bytes, arg: A)

  function ActionOf<A>(c: Call<A>): Bytes {
    c.service + [DOT] + c.name
  }

  /** `make_req` panics if the argument cannot be encoded; the rest is what a header can carry. */
  predicate Callable<A>(c: Codec<A>, call: Call<A>) {
    && call.seqNo < U64 && DOT !in call.service && Utf8(ActionOf(call)) && |ActionOf(call)| < U32_HIGH_MASK
    && c.encode(call.arg).Some? && |c.encode(call.arg).value| < U32
  }

  predicate AllCallable<A>(c: Codec<A>, calls: seq<Call<A>>) {
    && (forall k :: 0 <= k < |calls| ==> Callable(c, calls[k]))
    && (forall j, k :: 0 <= j < k < |calls| ==> calls[j].seqNo != calls[k].seqNo)
  }

  function MakeReq<A>(c: Codec<A>, clientId: nat, call: Call<A>): Request
    requires Callable(c, call)
  {
    Request(call.seqNo, clientId, Str(ActionOf(call)), c.encode(call.arg).value, None)
  }

  /** A service: what each method of each service returns for an argument. */
  type Service<!A, +V> = (Bytes, Bytes, A) -> Returned<V, Text>

  /** Inline dispatch of one request, as the generated service code answers it. */
  function Serve<A, V>(ac: Codec<A>, vc: Codec<V>, service: Service<A, V>, req: nat, q: SvrReq): Item
  {
    match RouteOf(q)
    case Ping => Item(req, q.seqNo, [], Fine(None))
    case Malformed => Item(req, q.seqNo, [], TaskReply.Broken(Rpc(Decode)))
    case Dispatched(s, n) =>
      var a := ac.decode(q.msg);
      Respond(vc, TextCodec(), req, q.seqNo, if a.Some? then service(s, n, a.value) else Raised(Framework(Decode)))
  }

  /** The request reaches the method that was called, with the argument it was called with. */
  lemma CallReachesMethod<A(!new), V>(
      ac: Codec<A>, vc: Codec<V>, service: Service<A, V>, clientId: nat, req: nat, call: Call<A>)
    requires CodecOk(ac) && Callable(ac, call)
    ensures Serve(ac, vc, service, req, Received(MakeReq(ac, clientId, call)))
            == Respond(vc, TextCodec(), req, call.seqNo, service(call.service, call.name, call.arg))
  {
    SplitJoined(call.service, call.name);
  }

  /** What is not a call is answered as on any connection, and a call whose argument does not decode
      with a decoding error. */
  lemma ServesTheRest<A, V>(ac: Codec<A>, vc: Codec<V>, service: Service<A, V>, req: nat, q: SvrReq)
    ensures var i := Serve(ac, vc, service, req, q);
            && i.req == req && i.seqNo == q.seqNo
            && (q.action == Num(0) && q.msg == [] ==> i.msg == [] && i.reply == Fine(None))
            && (q.action.Num? && (q.action != Num(0) || q.msg != []) ==>
                  i.msg == [] && i.reply == TaskReply.Broken(Rpc(Decode)))
            && (q.action.Str? && (DOT !in q.action.str || ac.decode(q.msg).None?) ==>
                  i.msg == [] && i.reply == TaskReply.Broken(Rpc(Decode)))
  {
  }

  /** The waiting callers, one per response, each known by its own number. */
  ghost predicate Awaited(waiting: map<nat, TcpClient.ClientTask>, rs: seq<Response>) {
    && (forall k :: 0 <= k < |rs| ==> rs[k].seqNo in waiting)
    && (forall j, k :: 0 <= j < k < |rs| ==> rs[j].seqNo != rs[k].seqNo)
  }

  /** What is waited for can be read, whatever its size. */
  lemma {:induction false} AwaitedReadable(waiting: map<nat, TcpClient.ClientTask>, rs: seq<Response>)
    requires Awaited(waiting, rs)
    ensures TcpClient.Readable(waiting, rs)
    decreases |rs|
  {
    if rs != [] { AwaitedReadable(waiting - {rs[0].seqNo}, rs[1..]); }
  }

  /** Answers to different waiting tasks do not disturb each other. */
  lemma {:induction false} EachGetsItsOwn(decodes: (nat, Bytes) -> bool, waiting: map<nat, TcpClient.ClientTask>,
                                          log: seq<TcpClient.Outcome>, rs: seq<Response>, k: nat)
    requires Awaited(waiting, rs) && k < |rs|
    ensures var out := TcpClient.DeliverAll(decodes, waiting, log, rs).1;
            |out| == |log| + |rs| && out[..|log|] == log
            && out[|log| + k] == TcpClient.OutcomeOf(decodes, waiting[rs[k].seqNo], rs[k])
    decreases |rs|
  {
    var (w, l) := TcpClient.Deliver(decodes, waiting, log, rs[0]);
    if |rs| > 1 {
      var j := if k == 0 then 0 else k - 1;
      EachGetsItsOwn(decodes, w, l, rs[1..], j);
      var out := TcpClient.DeliverAll(decodes, waiting, log, rs).1;
      assert out[..|log|] == out[..|l|][..|log|];
      assert out[..|l|][|log|] == out[|log|];
      if k > 0 { assert rs[1..][j] == rs[k]; }
    }
  }

  // ---------- Any response of a server ----------

  /** What the task of a response gets, read off what the server's task returned. */
  ghost predicate Rightly(decodes: (nat, Bytes) -> bool, task: TcpClient.ClientTask, i: Item, o: TcpClient.Outcome) {
    match i.reply
    case Fine(blob) =>
      var b := BlobBytes(blob);
      if |i.msg| >= 0x1_0000_0000 || |b| > 0x7fff_ffff then o == TcpClient.Failed(task.id, Rpc(Encode))
      else if (b != [] && !task.hasBlobBuf) || (i.msg != [] && !decodes(task.id, i.msg)) then
        o == TcpClient.Failed(task.id, Rpc(Decode))
      else o == TcpClient.Done(task.id, i.msg, b)
    case Broken(Rpc(e)) => o == TcpClient.Failed(task.id, Rpc(e))
    case Broken(Errno(n)) => o == TcpClient.Failed(task.id, Errno(n))
    case Broken(Buf(text)) => (forall e :: text != Name(e)) ==> o == TcpClient.Failed(task.id, Buf(text))
    case Broken(Static(text)) => (forall e :: text != Name(e)) ==> o == TcpClient.Failed(task.id, Buf(text))
  }

  lemma MeantRightly(decodes: (nat, Bytes) -> bool, task: TcpClient.ClientTask, i: Item)
    ensures Rightly(decodes, task, i, TcpClient.OutcomeOf(decodes, task, Meant(i.seqNo, i.msg, i.reply)))
  {
    var r := Meant(i.seqNo, i.msg, i.reply);
    TcpClient.OutcomeMeans(decodes, task, r);
    if i.reply.Fine? {
      if TooLong(i.msg, i.reply.blob) {
        assert r == TextReply(i.seqNo, Name(Encode));
      } else {
        assert r == Reply(i.seqNo, i.msg, BlobBytes(i.reply.blob));
      }
    } else if i.reply.err.Rpc? {
      assert r == TextReply(i.seqNo, Name(i.reply.err.err));
    } else {
      assert i.reply.err.Errno? ==> r == ErrnoReply(i.seqNo, i.reply.err.n);
      assert !i.reply.err.Errno? ==> r == TextReply(i.seqNo, ErrText(i.reply.err));
    }
  }

  /** Message, blob or error of every response, written by the server and cut up in any way, reach the
      task that waits for it. */
  method ItemsReachTasks(items: seq<Item>, stale: Bytes, serverBuf: nat, clientBuf: nat,
                         wscript: seq<IoEvent>, rscript: seq<IoEvent>,
                         decodes: (nat, Bytes) -> bool, waiting: map<nat, TcpClient.ClientTask>)
    returns (log: seq<TcpClient.Outcome>)
    requires |stale| == RESP_HEAD_LEN && serverBuf > 0 && clientBuf > 0 && AllClean(items)
    requires Lively(wscript) && Calm(rscript)
    requires forall k :: 0 <= k < |items| ==> items[k].seqNo in waiting
    requires forall j, k :: 0 <= j < k < |items| ==> items[j].seqNo != items[k].seqNo
    ensures |log| == |items|
    ensures forall k :: 0 <= k < |items| ==> Rightly(decodes, waiting[items[k].seqNo], items[k], log[k])
  {
    ItemsAwaited(items, waiting);
    AwaitedReadable(waiting, MeantBy(items));
    var left;
    left, log := ResponsesArrive(items, stale, serverBuf, clientBuf, wscript, rscript, decodes, waiting);
    if items == [] { assert log == []; }
    forall k | 0 <= k < |items|
      ensures |log| == |items| && Rightly(decodes, waiting[items[k].seqNo], items[k], log[k])
    {
      EachGetsItsOwn(decodes, waiting, [], MeantBy(items), k);
      MeantRightly(decodes, waiting[items[k].seqNo], items[k]);
    }
    if items != [] { EachGetsItsOwn(decodes, waiting, [], MeantBy(items), 0); }
  }

  lemma ItemsAwaited(items: seq<Item>, waiting: map<nat, TcpClient.ClientTask>)
    requires forall k :: 0 <= k < |items| ==> items[k].seqNo in waiting
    requires forall j, k :: 0 <= j < k < |items| ==> items[j].seqNo != items[k].seqNo
    ensures Awaited(waiting, MeantBy(items))
  {
    assert forall k :: 0 <= k < |items| ==> MeantBy(items)[k].seqNo == items[k].seqNo;
  }

  // ---------- Typed calls, end to end ----------

  function Invoke<A, V>(service: Service<A, V>, call: Call<A>): Returned<V, Text> {
    service(call.service, call.name, call.arg)
  }

  predicate AllSendable<A, V>(vc: Codec<V>, service: Service<A, V>, calls: seq<Call<A>>) {
    forall k :: 0 <= k < |calls| ==> Sendable(vc, Invoke(service, calls[k]))
  }

  function ReplyTo<A, V>(vc: Codec<V>, service: Service<A, V>, calls: seq<Call<A>>, k: nat): Item
    requires k < |calls|
  {
    Respond(vc, TextCodec(), k, calls[k].seqNo, Invoke(service, calls[k]))
  }

  ghost predicate Answers<A, V>(vc: Codec<V>, service: Service<A, V>, calls: seq<Call<A>>, items: seq<Item>) {
    |items| == |calls| && forall k :: 0 <= k < |calls| ==> items[k] == ReplyTo(vc, service, calls, k)
  }

  method MakeReqs<A>(ac: Codec<A>, clientId: nat, calls: seq<Call<A>>) returns (reqs: seq<Request>)
    requires AllCallable(ac, calls) && clientId < U64
    ensures |reqs| == |calls| && AllOk(reqs)
    ensures forall k :: 0 <= k < |calls| ==> reqs[k] == MakeReq(ac, clientId, calls[k])
  {
    reqs := [];
    for k := 0 to |calls|
      invariant |reqs| == k && forall j :: 0 <= j < k ==> reqs[j] == MakeReq(ac, clientId, calls[j])
    {
      reqs := reqs + [MakeReq(ac, clientId, calls[k])];
    }
  }

  /** The client sends every call and the server answers what it reads. */
  method Dispatch<A(!new), V>(
      ac: Codec<A>, vc: Codec<V>, service: Service<A, V>, calls: seq<Call<A>>, clientId: nat,
      flushes: seq<bool>, stale: Bytes, clientBuf: nat, serverBuf: nat, wscript: seq<IoEvent>, rscript: seq<IoEvent>)
    returns (items: seq<Item>)
    requires CodecOk(ac) && AllCallable(ac, calls) && clientId < U64
    requires |flushes| == |calls| && |stale| == REQ_HEAD_LEN && clientBuf > 0 && serverBuf > 0
    requires Lively(wscript) && Calm(rscript)
    ensures Answers(vc, service, calls, items)
  {
    var reqs := MakeReqs(ac, clientId, calls);
    var got := TcpServer.RoundTrip(reqs, flushes, stale, clientBuf, serverBuf, wscript, rscript);
    items := [];
    for k := 0 to |calls|
      invariant |items| == k && forall j :: 0 <= j < k ==> items[j] == ReplyTo(vc, service, calls, j)
    {
      CallReachesMethod(ac, vc, service, clientId, k, calls[k]);
      items := items + [Serve(ac, vc, service, k, got[k])];
    }
  }

  /** Every caller registers before its request is sent. */
  method Register<A>(calls: seq<Call<A>>) returns (waiting: map<nat, TcpClient.ClientTask>)
    requires forall j, k :: 0 <= j < k < |calls| ==> calls[j].seqNo != calls[k].seqNo
    ensures forall k :: 0 <= k < |calls| ==> calls[k].seqNo in waiting && waiting[calls[k].seqNo] == Caller(k)
  {
    waiting := map[];
    for k := 0 to |calls|
      invariant forall j :: 0 <= j < k ==> calls[j].seqNo in waiting && waiting[calls[j].seqNo] == Caller(j)
    {
      waiting := waiting[calls[k].seqNo := Caller(k)];
    }
  }

  lemma AnswersAwaited<A, V>(vc: Codec<V>, service: Service<A, V>, calls: seq<Call<A>>, items: seq<Item>,
                             waiting: map<nat, TcpClient.ClientTask>)
    requires Answers(vc, service, calls, items)
    requires forall k :: 0 <= k < |calls| ==> calls[k].seqNo in waiting
    requires forall j, k :: 0 <= j < k < |calls| ==> calls[j].seqNo != calls[k].seqNo
    ensures Awaited(waiting, MeantBy(items))
  {
    forall k | 0 <= k < |calls| ensures MeantBy(items)[k].seqNo == calls[k].seqNo {
      assert items[k] == ReplyTo(vc, service, calls, k);
    }
  }

  lemma AnswersClean<A, V>(vc: Codec<V>, service: Service<A, V>, calls: seq<Call<A>>, items: seq<Item>)
    requires Answers(vc, service, calls, items) && AllSendable(vc, service, calls)
    requires forall k :: 0 <= k < |calls| ==> calls[k].seqNo < U64
    ensures AllClean(items)
  {
    forall k | 0 <= k < |items| ensures Clean(items[k]) {
      ResponseFits(vc, k, calls[k].seqNo, Invoke(service, calls[k]));
    }
  }

  /** The k-th caller, looking at the task it got back. */
  lemma CallerGets<A, V(!new)>(
      vc: Codec<V>, default: V, service: Service<A, V>, calls: seq<Call<A>>, items: seq<Item>,
      waiting: map<nat, TcpClient.ClientTask>, log: seq<TcpClient.Outcome>, k: nat)
    requires CodecOk(vc) && Answers(vc, service, calls, items) && k < |calls| && Sendable(vc, Invoke(service, calls[k]))
    requires Awaited(waiting, MeantBy(items)) && calls[k].seqNo in waiting && waiting[calls[k].seqNo] == Caller(k)
    requires log == TcpClient.DeliverAll(KeepsAny, waiting, [], MeantBy(items)).1
    ensures |log| == |calls|
    ensures ProcessRes(vc, TextCodec(), default, log[k]) == Some(Expected(vc, Invoke(service, calls[k])))
  {
    EachGetsItsOwn(KeepsAny, waiting, [], MeantBy(items), k);
    assert items[k] == ReplyTo(vc, service, calls, k);
    MeantText(vc, default, k, k, calls[k].seqNo, Invoke(service, calls[k]));
  }

  /** The responses come back and every caller looks at its own. */
  method Collect<A, V(!new)>(
      vc: Codec<V>, default: V, ghost service: Service<A, V>, calls: seq<Call<A>>, items: seq<Item>,
      stale: Bytes, clientBuf: nat, serverBuf: nat, wscript: seq<IoEvent>, rscript: seq<IoEvent>)
    returns (results: seq<Option<Returned<V, Text>>>)
    requires CodecOk(vc) && Answers(vc, service, calls, items) && AllSendable(vc, service, calls)
    requires forall k :: 0 <= k < |calls| ==> calls[k].seqNo < U64
    requires forall j, k :: 0 <= j < k < |calls| ==> calls[j].seqNo != calls[k].seqNo
    requires |stale| == RESP_HEAD_LEN && clientBuf > 0 && serverBuf > 0 && Lively(wscript) && Calm(rscript)
    ensures |results| == |calls|
    ensures forall k :: 0 <= k < |calls| ==> results[k] == Some(Expected(vc, Invoke(service, calls[k])))
  {
    var waiting := Register(calls);
    AnswersAwaited(vc, service, calls, items, waiting);
    AnswersClean(vc, service, calls, items);
    AwaitedReadable(waiting, MeantBy(items));
    var left, log := ResponsesArrive(items, stale, serverBuf, clientBuf, wscript, rscript, KeepsAny, waiting);
    results := Interpret(vc, default, service, calls, items, waiting, log);
  }

  method Interpret<A, V(!new)>(
      vc: Codec<V>, default: V, ghost service: Service<A, V>, calls: seq<Call<A>>, ghost items: seq<Item>,
      ghost waiting: map<nat, TcpClient.ClientTask>, log: seq<TcpClient.Outcome>)
    returns (results: seq<Option<Returned<V, Text>>>)
    requires CodecOk(vc) && Answers(vc, service, calls, items) && AllSendable(vc, service, calls)
    requires Awaited(waiting, MeantBy(items))
    requires forall k :: 0 <= k < |calls| ==> calls[k].seqNo in waiting && waiting[calls[k].seqNo] == Caller(k)
    requires log == TcpClient.DeliverAll(KeepsAny, waiting, [], MeantBy(items)).1
    ensures |results| == |calls|
    ensures forall k :: 0 <= k < |calls| ==> results[k] == Some(Expected(vc, Invoke(service, calls[k])))
  {
    results := [];
    for k := 0 to |calls|
      invariant |results| == k && forall j :: 0 <= j < k ==> results[j] == Some(Expected(vc, Invoke(service, calls[j])))
    {
      CallerGets(vc, default, service, calls, items, waiting, log, k);
      results := results + [ProcessRes(vc, TextCodec(), default, log[k])];
    }
  }

  /** Any number of calls on one connection, requests and responses cut up in any way: every call
      reaches its method and every caller gets what that method returned. */
  method CallAll<A(!new), V(!new)>(
      ac: Codec<A>, vc: Codec<V>, default: V, service: Service<A, V>, calls: seq<Call<A>>, clientId: nat,
      flushes: seq<bool>, staleReq: Bytes, staleResp: Bytes, clientBuf: nat, serverBuf: nat,
      up: seq<IoEvent>, upRead: seq<IoEvent>, down: seq<IoEvent>, downRead: seq<IoEvent>)
    returns (results: seq<Option<Returned<V, Text>>>)
    requires CodecOk(ac) && CodecOk(vc) && AllCallable(ac, calls) && AllSendable(vc, service, calls) && clientId < U64
    requires |flushes| == |calls| && clientBuf > 0 && serverBuf > 0
    requires |staleReq| == REQ_HEAD_LEN && |staleResp| == RESP_HEAD_LEN
    requires Lively(up) && Calm(upRead) && Lively(down) && Calm(downRead)
    ensures |results| == |calls|
    ensures forall k :: 0 <= k < |calls| ==> results[k] == Some(Expected(vc, Invoke(service, calls[k])))
  {
    var items := Dispatch(ac, vc, service, calls, clientId, flushes, staleReq, clientBuf, serverBuf, up, upRead);
    results := Collect(vc, default, service, calls, items, staleResp, clientBuf, serverBuf, down, downRead);
  }
}
