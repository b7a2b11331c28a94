/** The wire format: little-endian integers, the request header (32 bytes), the response header
    (20 bytes), and the bodies that follow them. */
module Wire {
  import opened Prelude
  import opened Errors

  const U16: nat := 0x1_0000
  const U32: nat := 0x1_0000_0000
  const U64: nat := 0x1_0000_0000_0000_0000
  const I32_MAX: nat := 0x7fff_ffff

  const RPC_MAGIC: nat := 19749
  const RPC_VERSION_1: nat := 1
  const PING_ACTION: nat := 0
  const U32_HIGH_MASK: nat := 0x8000_0000
  const RESP_FLAG_HAS_ERRNO: nat := 1
  const RESP_FLAG_HAS_ERR_STRING: nat := 2
  const REQ_HEAD_LEN: nat := 32
  const RESP_HEAD_LEN: nat := 20

  // ---------- Integers ----------

  function Pow256(w: nat): (p: nat)
    ensures p >= 1
  {
    if w == 0 then 1 else 256 * Pow256(w - 1)
  }

  /** The low `w` bytes of `n`, least significant first. */
  function Le(n: nat, w: nat): (b: Bytes)
    ensures |b| == w
  {
    if w == 0 then [] else [n % 256] + Le(n / 256, w - 1)
  }

  function UnLe(b: Bytes): nat {
    if b == [] then 0 else b[0] + 256 * UnLe(b[1..])
  }

  lemma {:induction false} LeRoundTrip(n: nat, w: nat)
    requires n < Pow256(w)
    ensures UnLe(Le(n, w)) == n
  {
    if w > 0 {
      LeRoundTrip(n / 256, w - 1);
      assert Le(n, w)[1..] == Le(n / 256, w - 1);
    }
  }

  lemma DivDiv(n: nat, b: nat)
    requires b > 0
    ensures n / 256 / b == n / (256 * b)
  {
    var q, r := n / 256, n % 256;
    var c, d := q / b, q % b;
    assert q == c * b + d && n == 256 * q + r;
    assert 256 * (c * b) == c * (256 * b);
    DivModUnique(n, 256 * b, c, 256 * d + r);
  }

  /** Least significant byte first: byte `i` of a number is its digit for 256 to the power of `i`. */
  lemma {:induction false} LeByte(n: nat, w: nat, i: nat)
    requires i < w
    ensures Le(n, w)[i] == n / Pow256(i) % 256
  {
    if i > 0 {
      LeByte(n / 256, w - 1, i - 1);
      DivDiv(n, Pow256(i - 1));
    }
  }

  lemma {:induction false} UnLeBound(b: Bytes)
    ensures UnLe(b) < Pow256(|b|)
  {
    if b != [] { UnLeBound(b[1..]); }
  }

  lemma Widths()
    ensures Pow256(2) == U16 && Pow256(4) == U32 && Pow256(8) == U64
  {
    assert Pow256(1) == 256 && Pow256(2) == U16 && Pow256(3) == 0x100_0000 && Pow256(4) == U32;
    assert Pow256(5) == 0x100 * U32 && Pow256(6) == U16 * U32 && Pow256(7) == 0x100_0000 * U32;
  }

  /** A u32 read back as i32. */
  function AsI32(n: nat): int
    requires n < U32
  {
    if n <= I32_MAX then n else n - U32
  }

  /** An i32 stored as u32. */
  function AsU32(n: int): (u: nat)
    requires -(U32_HIGH_MASK as int) <= n <= I32_MAX
    ensures u < U32 && AsI32(u) == n
  {
    if n >= 0 then n else n + U32
  }

  // ---------- Actions ----------

  /** A string action is the bytes of a Rust string, so always well-formed UTF-8. */
  datatype RpcAction = Num(num: int) | Str(str: Bytes)

  predicate ActionTyped(a: RpcAction) {
    match a
    case Num(n) => -(U32_HIGH_MASK as int) <= n <= I32_MAX
    case Str(s) => Utf8(s)
  }

  /** The action field as `ReqHead::encode` computes it: `num as u32`, or `len as u32 | MASK`. */
  function ActionField(a: RpcAction): (f: nat)
    requires ActionTyped(a)
    ensures f < U32
  {
    match a
    case Num(n) => AsU32(n)
    case Str(s) => U32_HIGH_MASK + |s| % U32_HIGH_MASK
  }

  datatype ActionHead = IsNum(num: int) | HasLen(len: nat)

  /** `ReqHead::get_action` on the field. */
  function GetAction(field: nat): ActionHead
    requires field < U32
  {
    if field < U32_HIGH_MASK then IsNum(field) else HasLen(field - U32_HIGH_MASK)
  }

  predicate ActionFits(a: RpcAction) {
    match a
    case Num(n) => 0 <= n <= I32_MAX
    case Str(s) => Utf8(s) && |s| < U32_HIGH_MASK
  }

  /** The field identifies the action exactly when a number is not negative and a string is
      shorter than 2^31 bytes: a negative number reads back as a string length. */
  lemma ActionFieldExact(a: RpcAction)
    requires ActionTyped(a)
    ensures ActionFits(a) <==>
            match a
            case Num(n) => GetAction(ActionField(a)) == IsNum(n)
            case Str(s) => GetAction(ActionField(a)) == HasLen(|s|)
  {
  }

  /** A number that reads back as a string length. */
  lemma NegativeNumberIsLength()
    ensures GetAction(ActionField(Num(-1))) == HasLen(I32_MAX)
  {
  }

  // ---------- Headers ----------

  datatype ReqHead = ReqHead(action: nat, seqNo: nat, clientId: nat, msgLen: nat, blobLen: nat)

  datatype RespHead = RespHead(flag: nat, msgLen: nat, seqNo: nat, blobLen: int)

  datatype Decoded<+T> = Head(head: T) | Bad(error: RpcIntErr)

  predicate ReqHeadFits(h: ReqHead) {
    h.action < U32 && h.seqNo < U64 && h.clientId < U64 && h.msgLen < U32 && h.blobLen < U32
  }

  predicate RespHeadFits(h: RespHead) {
    h.flag < 256 && h.msgLen < U32 && h.seqNo < U64 && -(U32_HIGH_MASK as int) <= h.blobLen <= I32_MAX
  }

  function ReqHeadBytes(h: ReqHead): (b: Bytes)
    ensures |b| == REQ_HEAD_LEN
  {
    Le(RPC_MAGIC, 2) + [RPC_VERSION_1] + [0] + Le(h.action, 4) + Le(h.seqNo, 8) + Le(h.clientId, 8)
    + Le(h.msgLen, 4) + Le(h.blobLen, 4)
  }

  function DecodeReqHead(b: Bytes): (r: Decoded<ReqHead>)
    requires |b| == REQ_HEAD_LEN
    ensures r.Head? ==> ReqHeadFits(r.head)
  {
    ReqFieldBounds(b);
    if UnLe(b[0..2]) != RPC_MAGIC then Bad(IO)
    else if b[2] != RPC_VERSION_1 then Bad(Version)
    else Head(ReqHead(UnLe(b[4..8]), UnLe(b[8..16]), UnLe(b[16..24]), UnLe(b[24..28]), UnLe(b[28..32])))
  }

  lemma ReqFieldBounds(b: Bytes)
    requires |b| == REQ_HEAD_LEN
    ensures UnLe(b[4..8]) < U32 && UnLe(b[8..16]) < U64 && UnLe(b[16..24]) < U64
    ensures UnLe(b[24..28]) < U32 && UnLe(b[28..32]) < U32
  {
    Widths();
    UnLeBound(b[4..8]); UnLeBound(b[8..16]); UnLeBound(b[16..24]); UnLeBound(b[24..28]); UnLeBound(b[28..32]);
  }

  function RespHeadBytes(h: RespHead): (b: Bytes)
    requires RespHeadFits(h)
    ensures |b| == RESP_HEAD_LEN
  {
    Le(RPC_MAGIC, 2) + [RPC_VERSION_1] + [h.flag] + Le(h.msgLen, 4) + Le(h.seqNo, 8) + Le(AsU32(h.blobLen), 4)
  }

  function DecodeRespHead(b: Bytes): (r: Decoded<RespHead>)
    requires |b| == RESP_HEAD_LEN
    ensures r.Head? ==> RespHeadFits(r.head)
  {
    RespFieldBounds(b);
    if UnLe(b[0..2]) != RPC_MAGIC then Bad(IO)
    else if b[2] != RPC_VERSION_1 then Bad(Version)
    else Head(RespHead(b[3], UnLe(b[4..8]), UnLe(b[8..16]), AsI32(UnLe(b[16..20]))))
  }

  lemma RespFieldBounds(b: Bytes)
    requires |b| == RESP_HEAD_LEN
    ensures UnLe(b[4..8]) < U32 && UnLe(b[8..16]) < U64 && UnLe(b[16..20]) < U32
  {
    Widths();
    UnLeBound(b[4..8]); UnLeBound(b[8..16]); UnLeBound(b[16..20]);
  }

  /** Magic number, version, format, action, sequence number, client, message length, blob length. */
  lemma ReqHeadFields(h: ReqHead)
    ensures var b := ReqHeadBytes(h);
            && b[0..2] == Le(RPC_MAGIC, 2) && b[2] == RPC_VERSION_1 && b[3] == 0
            && b[4..8] == Le(h.action, 4) && b[8..16] == Le(h.seqNo, 8) && b[16..24] == Le(h.clientId, 8)
            && b[24..28] == Le(h.msgLen, 4) && b[28..32] == Le(h.blobLen, 4)
  {
  }

  lemma MagicBytes()
    ensures Le(RPC_MAGIC, 2) == [0x25, 0x4d]
  {
    assert Le(RPC_MAGIC / 256, 1) == [0x4d];
  }

  lemma MagicExact(b: Bytes)
    requires |b| == 2
    ensures UnLe(b) == RPC_MAGIC <==> b == [0x25, 0x4d]
  {
    var low: int, high: int := b[0], b[1];
    assert b[1..][1..] == [] && UnLe(b[1..]) == high;
    assert UnLe(b) == low + 256 * high;
  }

  /** A header with another magic number is an I/O error, one with another version a version error. */
  lemma RespHeadRefused(b: Bytes)
    requires |b| == RESP_HEAD_LEN
    ensures DecodeRespHead(b) == Bad(IO) <==> b[0..2] != [0x25, 0x4d]
    ensures DecodeRespHead(b) == Bad(Version) <==> b[0..2] == [0x25, 0x4d] && b[2] != 1
    ensures DecodeRespHead(b).Bad? <==> b[0..2] != [0x25, 0x4d] || b[2] != 1
  {
    MagicExact(b[0..2]);
  }

  lemma ReqHeadRefused(b: Bytes)
    requires |b| == REQ_HEAD_LEN
    ensures DecodeReqHead(b).Bad? <==> b[0..2] != [0x25, 0x4d] || b[2] != 1
  {
    MagicExact(b[0..2]);
  }

  lemma ReqHeadRoundTrip(h: ReqHead)
    requires ReqHeadFits(h)
    ensures DecodeReqHead(ReqHeadBytes(h)) == Head(h)
  {
    Widths();
    ReqHeadFields(h);
    LeRoundTrip(RPC_MAGIC, 2);
    LeRoundTrip(h.action, 4); LeRoundTrip(h.seqNo, 8); LeRoundTrip(h.clientId, 8);
    LeRoundTrip(h.msgLen, 4); LeRoundTrip(h.blobLen, 4);
  }

  lemma RespHeadFields(h: RespHead)
    requires RespHeadFits(h)
    ensures var b := RespHeadBytes(h);
            && b[0..2] == Le(RPC_MAGIC, 2) && b[2] == RPC_VERSION_1 && b[3] == h.flag
            && b[4..8] == Le(h.msgLen, 4) && b[8..16] == Le(h.seqNo, 8) && b[16..20] == Le(AsU32(h.blobLen), 4)
  {
  }

  lemma RespHeadRoundTrip(h: RespHead)
    requires RespHeadFits(h)
    ensures DecodeRespHead(RespHeadBytes(h)) == Head(h)
  {
    Widths();
    RespHeadFields(h);
    LeRoundTrip(RPC_MAGIC, 2);
    LeRoundTrip(h.msgLen, 4); LeRoundTrip(h.seqNo, 8); LeRoundTrip(AsU32(h.blobLen), 4);
  }
}
