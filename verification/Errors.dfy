/** Internal errors, their reserved names on the wire, and the encoded form of any error. */
module Errors {
  import opened Prelude

  datatype RpcIntErr =
    | Unreachable | IO | Timeout | Method | Service | Encode | Decode | Internal | Version

  /** The derived order of the enum. */
  function Rank(e: RpcIntErr): nat {
    match e
    case Unreachable => 0
    case IO => 1
    case Timeout => 2
    case Method => 3
    case Service => 4
    case Encode => 5
    case Decode => 6
    case Internal => 7
    case Version => 8
  }

  /** Errors below `Method` may be retried on another server. */
  predicate Retriable(e: RpcIntErr) {
    Rank(e) < Rank(Method)
  }

  lemma RetriableExact(e: RpcIntErr)
    ensures Retriable(e) <==> e in {Unreachable, IO, Timeout}
  {
  }

  function NameText(e: RpcIntErr): (s: string)
    ensures forall i :: 0 <= i < |s| ==> s[i] < 128 as char
  {
    match e
    case Unreachable => "rpc_unreachable"
    case IO => "rpc_io_err"
    case Timeout => "rpc_timeout"
    case Method => "rpc_method_notfound"
    case Service => "rpc_service_notfound"
    case Encode => "rpc_encode"
    case Decode => "rpc_decode"
    case Internal => "rpc_internal_err"
    case Version => "rpc_invalid_ver"
  }

  function Name(e: RpcIntErr): Bytes {
    Ascii(NameText(e))
  }

  const RPC_ERR_PREFIX: Bytes := Ascii("rpc_")

  /** RpcIntErr::from_str. */
  function FromName(b: Bytes): Option<RpcIntErr> {
    if b == Name(Unreachable) then Some(Unreachable)
    else if b == Name(IO) then Some(IO)
    else if b == Name(Timeout) then Some(Timeout)
    else if b == Name(Method) then Some(Method)
    else if b == Name(Service) then Some(Service)
    else if b == Name(Encode) then Some(Encode)
    else if b == Name(Decode) then Some(Decode)
    else if b == Name(Internal) then Some(Internal)
    else if b == Name(Version) then Some(Version)
    else None
  }

  /** The nine names are distinct: length and fifth character tell them apart. */
  lemma NamesDistinct(d: RpcIntErr, e: RpcIntErr)
    ensures Name(d) == Name(e) <==> d == e
  {
    if d != e && |Name(d)| == |Name(e)| {
      assert Name(d)[4] == NameText(d)[4] as int;
      assert Name(e)[4] == NameText(e)[4] as int;
    }
  }

  lemma NameRoundTrip(e: RpcIntErr)
    ensures FromName(Name(e)) == Some(e)
  {
    NamesDistinct(Unreachable, e); NamesDistinct(IO, e); NamesDistinct(Timeout, e);
    NamesDistinct(Method, e); NamesDistinct(Service, e); NamesDistinct(Encode, e);
    NamesDistinct(Decode, e); NamesDistinct(Internal, e); NamesDistinct(Version, e);
  }

  lemma NameIsReserved(e: RpcIntErr)
    ensures RPC_ERR_PREFIX <= Name(e) && Utf8(Name(e)) && 10 <= |Name(e)| <= 20
  {
    AsciiIsUtf8(Name(e));
    assert forall i :: 0 <= i < 4 ==> RPC_ERR_PREFIX[i] == Name(e)[i];
  }

  /** What the server puts in a response instead of a result. */
  datatype EncodedErr = Rpc(err: RpcIntErr) | Errno(n: nat) | Static(text: Bytes) | Buf(buf: Bytes)
}
