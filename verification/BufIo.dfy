/** The buffered stream between the protocol and the socket. The socket may answer any read or
    write with fewer bytes than asked for, be interrupted, or fail: a script decides each call. */
module BufIo {
  import opened Prelude

  /** `Stall`: nothing arrives until the waiting is ended from outside. */
  datatype IoEvent = Give(n: nat) | Interrupt | Fail | Stall

  /** `Cancelled` is a read whose waiting was ended after `delivered` bytes. */
  datatype IoError = Interrupted | Broken | UnexpectedEof | WriteZero | Cancelled(delivered: nat)

  /** A script that never fails a read; a script that never fails a write or accepts nothing. */
  predicate Calm(script: seq<IoEvent>) {
    forall i :: 0 <= i < |script| ==> !script[i].Fail? && !script[i].Stall?
  }

  predicate Lively(script: seq<IoEvent>) {
    forall i :: 0 <= i < |script| ==> !script[i].Fail? && !script[i].Stall? && script[i] != Give(0)
  }

  predicate ReadFailure(e: IoError) {
    e.Interrupted? || e.Broken? || e == Cancelled(0)
  }

  function Min(a: nat, b: nat): nat {
    if a < b then a else b
  }

  /** The read that took the script from `before` to `after` ended at a stall. */
  predicate Stalled(before: seq<IoEvent>, after: seq<IoEvent>) {
    |after| < |before| && before[|before| - |after| - 1].Stall?
  }

  /** `after` is what is left of the script `before`. */
  predicate Remains(before: seq<IoEvent>, after: seq<IoEvent>) {
    |after| <= |before| && after == before[|before| - |after|..]
  }

  lemma RemainsStep(before: seq<IoEvent>, mid: seq<IoEvent>, after: seq<IoEvent>)
    requires Remains(before, mid) && !Stalled(before, mid) && Remains(mid, after)
    ensures Remains(before, after) && (Stalled(before, after) <==> Stalled(mid, after))
  {
  }

  lemma CalmRemains(before: seq<IoEvent>, after: seq<IoEvent>)
    requires Calm(before) && Remains(before, after)
    ensures Calm(after)
  {
  }

  /** The socket gives `k` single bytes and then stalls. */
  predicate Trickles(script: seq<IoEvent>, k: nat) {
    k < |script| && script[k].Stall? && forall i :: 0 <= i < k ==> script[i] == Give(1)
  }

  /** The socket: bytes still to arrive, bytes sent, and the scripts. */
  class Pipe {
    var incoming: Bytes
    var outgoing: Bytes
    var rscript: seq<IoEvent>
    var wscript: seq<IoEvent>

    constructor (incoming: Bytes, rscript: seq<IoEvent>, wscript: seq<IoEvent>)
      ensures this.incoming == incoming && outgoing == [] && this.rscript == rscript && this.wscript == wscript
    {
      this.incoming, this.outgoing, this.rscript, this.wscript := incoming, [], rscript, wscript;
    }

    method Read(dst: array<byte>, lo: nat, hi: nat) returns (r: Result<nat, IoError>)
      requires lo <= hi <= dst.Length
      modifies this`incoming, this`rscript, dst
      ensures r.Ok? ==> var n := r.value;
                        && n <= hi - lo && n <= |old(incoming)| && (n == 0 ==> lo == hi || old(incoming) == [])
                        && dst[..] == old(dst[..lo]) + old(incoming)[..n] + old(dst[lo + n..])
                        && incoming == old(incoming)[n..]
      ensures r.Err? ==> incoming == old(incoming) && dst[..] == old(dst[..]) && ReadFailure(r.error)
      ensures Remains(old(rscript), rscript) && (r == Err(Interrupted) ==> |rscript| < |old(rscript)|)
      ensures r == Err(Cancelled(0)) <==> Stalled(old(rscript), rscript)
      ensures Calm(old(rscript)) ==> Calm(rscript) && (r.Err? ==> r.error.Interrupted?)
      ensures old(rscript) != [] && old(rscript)[0] == Give(1) && lo < hi && old(incoming) != [] ==>
              r == Ok(1) && rscript == old(rscript)[1..]
      ensures old(rscript) != [] && old(rscript)[0].Stall? ==> r == Err(Cancelled(0))
    {
      var ev := NextEvent(hi - lo);
      match ev {
        case Fail => return Err(Broken);
        case Stall => return Err(Cancelled(0));
        case Interrupt => return Err(Interrupted);
        case Give(k) =>
          var n := Min(if k == 0 then 1 else k, Min(hi - lo, |incoming|));
          forall i | 0 <= i < n { dst[lo + i] := incoming[i]; }
          assert dst[..] == old(dst[..lo]) + old(incoming)[..n] + old(dst[lo + n..]);
          incoming := incoming[n..];
          return Ok(n);
      }
    }

    /** What the script says to the next read; past its end everything is given. */
    method NextEvent(room: nat) returns (ev: IoEvent)
      modifies this`rscript
      ensures ev == if old(rscript) == [] then Give(room) else old(rscript)[0]
      ensures Remains(old(rscript), rscript) && (ev.Stall? <==> Stalled(old(rscript), rscript))
      ensures old(rscript) != [] ==> rscript == old(rscript)[1..]
      ensures Calm(old(rscript)) ==> Calm(rscript) && !ev.Fail? && !ev.Stall?
    {
      if rscript == [] { return Give(room); }
      ev := rscript[0];
      rscript := rscript[1..];
    }

    method Write(src: Bytes) returns (r: Result<nat, IoError>)
      modifies this`outgoing, this`wscript
      ensures r.Ok? ==> r.value <= |src| && outgoing == old(outgoing) + src[..r.value]
      ensures r.Err? ==> outgoing == old(outgoing) && (r.error.Interrupted? || r.error.Broken?)
      ensures |wscript| <= |old(wscript)| && (r == Err(Interrupted) ==> |wscript| < |old(wscript)|)
      ensures Lively(old(wscript)) ==> Lively(wscript) && r != Err(Broken) && (src != [] ==> r != Ok(0))
    {
      var ev := if wscript == [] then Give(|src|) else wscript[0];
      if wscript != [] { wscript := wscript[1..]; }
      match ev {
        case Fail => return Err(Broken);
        case Stall => return Err(Broken);
        case Interrupt => return Err(Interrupted);
        case Give(k) =>
          var n := Min(k, |src|);
          outgoing := outgoing + src[..n];
          return Ok(n);
      }
    }

    /** write_all over the shrinking rest of `src`. */
    method WriteAll(src: Bytes) returns (r: Result<(), IoError>)
      modifies this`outgoing, this`wscript
      ensures r.Ok? ==> outgoing == old(outgoing) + src
      ensures r.Err? ==> !r.error.Interrupted? && old(outgoing) <= outgoing <= old(outgoing) + src
      ensures |wscript| <= |old(wscript)|
      ensures Lively(old(wscript)) ==> Lively(wscript) && r.Ok?
    {
      var at := 0;
      while at < |src|
        invariant at <= |src| && outgoing == old(outgoing) + src[..at] && |wscript| <= |old(wscript)|
        invariant Lively(old(wscript)) ==> Lively(wscript)
        decreases |src| - at, |wscript|
      {
        var w := Write(src[at..]);
        match w {
          case Ok(n) =>
            if n == 0 { return Err(WriteZero); }
            assert src[..at] + src[at..][..n] == src[..at + n];
            at := at + n;
          case Err(e) =>
            if !e.Interrupted? { return Err(e); }
        }
      }
      assert src[..at] == src;
      return Ok(());
    }
  }

  class BufRead {
    const buf: array<byte>
    var pos: nat
    var cap: nat

    ghost predicate Valid()
      reads this
    {
      pos <= cap <= buf.Length && buf.Length > 0
    }

    constructor (capacity: nat)
      requires capacity > 0
      ensures Valid() && fresh(buf) && pos == cap == 0 && buf.Length == capacity
    {
      buf := new byte[capacity](_ => 0);
      pos, cap := 0, 0;
    }

    /** What the next reads will deliver. */
    ghost function Ahead(inner: Pipe): Bytes
      requires Valid()
      reads this, buf, inner
    {
      buf[pos..cap] + inner.incoming
    }

    method ReadBuffered(inner: Pipe, dst: array<byte>, lo: nat, hi: nat) returns (r: Result<nat, IoError>)
      requires Valid() && dst != buf && lo <= hi <= dst.Length
      modifies this, buf, inner`incoming, inner`rscript, dst
      ensures Valid()
      ensures r.Ok? ==> var n := r.value;
                        && n <= hi - lo && n <= |old(Ahead(inner))| && (n == 0 ==> lo == hi || old(Ahead(inner)) == [])
                        && dst[..] == old(dst[..lo]) + old(Ahead(inner))[..n] + old(dst[lo + n..])
                        && Ahead(inner) == old(Ahead(inner))[n..]
      ensures r.Err? ==> Ahead(inner) == old(Ahead(inner)) && dst[..] == old(dst[..]) && ReadFailure(r.error)
      ensures Remains(old(inner.rscript), inner.rscript)
      ensures r == Err(Interrupted) ==> |inner.rscript| < |old(inner.rscript)|
      ensures r == Err(Cancelled(0)) <==> Stalled(old(inner.rscript), inner.rscript)
      ensures Calm(old(inner.rscript)) ==> Calm(inner.rscript) && (r.Err? ==> r.error.Interrupted?)
      ensures (old(pos) == old(cap) && old(inner.rscript) != [] && old(inner.rscript)[0] == Give(1) && lo < hi
               && old(Ahead(inner)) != []) ==> r == Ok(1) && pos == cap && inner.rscript == old(inner.rscript)[1..]
      ensures old(pos) == old(cap) && old(inner.rscript) != [] && old(inner.rscript)[0].Stall? ==>
              r == Err(Cancelled(0))
    {
      if pos < cap {
        var n := TakeBuffered(inner, dst, lo, hi);
        return Ok(n);
      }
      assert Ahead(inner) == inner.incoming;
      if hi - lo >= buf.Length {
        r := inner.Read(dst, lo, hi);
        assert Ahead(inner) == inner.incoming;
        return;
      }
      var f := Fill(inner);
      if f.Err? { return Err(f.error); }
      var n := TakeBuffered(inner, dst, lo, hi);
      return Ok(n);
    }

    /** Hands out buffered bytes. */
    method TakeBuffered(inner: Pipe, dst: array<byte>, lo: nat, hi: nat) returns (n: nat)
      requires Valid() && dst != buf && lo <= hi <= dst.Length
      modifies this`pos, dst
      ensures Valid() && n == Min(hi - lo, old(cap - pos)) <= |old(Ahead(inner))|
      ensures dst[..] == old(dst[..lo]) + old(Ahead(inner))[..n] + old(dst[lo + n..])
      ensures Ahead(inner) == old(Ahead(inner))[n..]
    {
      ghost var ahead := Ahead(inner);
      n := Min(hi - lo, cap - pos);
      Copy(dst, lo, n);
      assert buf[pos..pos + n] == ahead[..n];
      pos := pos + n;
    }

    /** Refills the empty buffer with one read. */
    method Fill(inner: Pipe) returns (r: Result<(), IoError>)
      requires Valid() && pos == cap
      modifies this, buf, inner`incoming, inner`rscript
      ensures Valid() && Ahead(inner) == old(Ahead(inner))
      ensures r.Ok? ==> pos == 0 && (cap == 0 ==> Ahead(inner) == [])
      ensures r.Err? ==> ReadFailure(r.error) && pos == cap
      ensures Remains(old(inner.rscript), inner.rscript)
      ensures r == Err(Interrupted) ==> |inner.rscript| < |old(inner.rscript)|
      ensures r == Err(Cancelled(0)) <==> Stalled(old(inner.rscript), inner.rscript)
      ensures Calm(old(inner.rscript)) ==> Calm(inner.rscript) && (r.Err? ==> r.error.Interrupted?)
      ensures old(inner.rscript) != [] && old(inner.rscript)[0] == Give(1) && old(Ahead(inner)) != [] ==>
              r.Ok? && cap == 1 && inner.rscript == old(inner.rscript)[1..]
      ensures old(inner.rscript) != [] && old(inner.rscript)[0].Stall? ==> r == Err(Cancelled(0))
    {
      ghost var ahead := inner.incoming;
      assert Ahead(inner) == ahead;
      var f := inner.Read(buf, 0, buf.Length);
      if f.Err? {
        assert buf[pos..cap] == [];
        return Err(f.error);
      }
      assert buf[0..f.value] == ahead[..f.value];
      cap, pos := f.value, 0;
      assert ahead[..f.value] + ahead[f.value..] == ahead;
      return Ok(());
    }

    /** copy_from_slice out of the buffer. */
    method Copy(dst: array<byte>, lo: nat, n: nat)
      requires Valid() && dst != buf && pos + n <= cap && lo + n <= dst.Length
      modifies dst
      ensures dst[..] == old(dst[..lo]) + buf[pos..pos + n] + old(dst[lo + n..])
    {
      forall i | 0 <= i < n { dst[lo + i] := buf[pos + i]; }
      assert forall i :: lo <= i < lo + n ==> dst[i] == buf[pos + (i - lo)];
      assert dst[..lo] == old(dst[..lo]);
      assert dst[lo..lo + n] == buf[pos..pos + n];
      assert dst[lo + n..] == old(dst[lo + n..]);
      assert dst[..] == dst[..lo] + dst[lo..lo + n] + dst[lo + n..];
    }
  }

  class BufWrite {
    const buf: array<byte>
    var pos: nat

    ghost predicate Valid()
      reads this
    {
      pos <= buf.Length && buf.Length > 0
    }

    constructor (capacity: nat)
      requires capacity > 0
      ensures Valid() && fresh(buf) && pos == 0 && buf.Length == capacity
    {
      buf := new byte[capacity](_ => 0);
      pos := 0;
    }

    /** Everything accepted so far, sent or not. */
    ghost function Accepted(inner: Pipe): Bytes
      requires Valid()
      reads this, buf, inner
    {
      inner.outgoing + buf[..pos]
    }

    method Flush(inner: Pipe) returns (r: Result<(), IoError>)
      requires Valid()
      modifies this`pos, inner`outgoing, inner`wscript
      ensures Valid()
      ensures r.Ok? ==> pos == 0 && inner.outgoing == old(Accepted(inner))
      ensures r.Err? ==> !r.error.Interrupted? && pos == old(pos)
                         && old(inner.outgoing) <= inner.outgoing <= old(Accepted(inner))
      ensures |inner.wscript| <= |old(inner.wscript)|
      ensures Lively(old(inner.wscript)) ==> Lively(inner.wscript) && r.Ok?
    {
      if pos > 0 {
        r := inner.WriteAll(buf[..pos]);
        if r.Err? { return; }
        pos := 0;
      }
      return Ok(());
    }

    method WriteBuffered(inner: Pipe, src: Bytes) returns (r: Result<nat, IoError>)
      requires Valid()
      modifies this, buf, inner`outgoing, inner`wscript
      ensures Valid()
      ensures r.Ok? ==> r.value <= |src| && Accepted(inner) == old(Accepted(inner)) + src[..r.value]
      ensures old(inner.outgoing) <= inner.outgoing && (r.Err? ==> inner.outgoing <= old(Accepted(inner)))
      ensures r == Err(Interrupted) ==>
              Accepted(inner) == old(Accepted(inner)) && |inner.wscript| < |old(inner.wscript)|
      ensures |inner.wscript| <= |old(inner.wscript)|
      ensures Lively(old(inner.wscript)) ==>
              Lively(inner.wscript) && (r.Err? ==> r.error == Interrupted) && (src != [] ==> r != Ok(0))
    {
      if |src| >= buf.Length {
        var f := Flush(inner);
        if f.Err? { return Err(f.error); }
        r := inner.Write(src);
        return;
      }
      if buf.Length - pos < |src| {
        var f := Flush(inner);
        if f.Err? { return Err(f.error); }
      }
      var n := |src|;
      ghost var before := buf[..pos];
      forall i | 0 <= i < n { buf[pos + i] := src[i]; }
      assert buf[..pos + n] == before + src;
      pos := pos + n;
      assert src[..n] == src;
      return Ok(n);
    }
  }

  /** A read of `n` bytes given up after `m` of them: these are gone, the rest still arrives. */
  ghost predicate CutAt(n: nat, before: Bytes, m: nat, after: Bytes) {
    m < n && m <= |before| && after == before[m..]
  }

  /** Both directions of one connection. */
  class BufStream {
    const inner: Pipe
    const rd: BufRead
    const wr: BufWrite

    ghost predicate Valid()
      reads this, rd, wr
    {
      rd.Valid() && wr.Valid() && rd.buf != wr.buf
    }

    /** The byte pipe a reader sees: everything not yet delivered. */
    ghost function Incoming(): Bytes
      requires Valid()
      reads this, rd, wr, rd.buf, inner
    {
      rd.Ahead(inner)
    }

    /** The buffer is empty and the socket gives `k` of `n` bytes, one by one, and then stalls. */
    ghost predicate StallsAfter(n: nat, k: nat)
      requires Valid()
      reads this, rd, wr, rd.buf, inner
    {
      rd.pos == rd.cap && k < n && k <= |Incoming()| && Trickles(inner.rscript, k)
    }

    /** The byte pipe a writer sees: everything accepted, sent or still buffered. */
    ghost function Accepted(): Bytes
      requires Valid()
      reads this, rd, wr, wr.buf, inner
    {
      wr.Accepted(inner)
    }

    constructor (inner: Pipe, bufSize: nat)
      requires bufSize > 0
      ensures Valid() && this.inner == inner && fresh(rd) && fresh(wr) && fresh(rd.buf) && fresh(wr.buf)
      ensures Incoming() == inner.incoming && Accepted() == inner.outgoing && rd.pos == rd.cap
    {
      this.inner := inner;
      var r := new BufRead(bufSize);
      var w := new BufWrite(bufSize);
      rd, wr := r, w;
      new;
      assert rd.buf[0..0] == [] && wr.buf[..0] == [];
    }

    /** `dst` is filled up to `at` with the first bytes of `all`, and the others are to come. */
    ghost predicate Filled(dst: array<byte>, at: nat, all: Bytes)
      reads this, rd, wr, rd.buf, inner, dst
    {
      Valid() && at <= dst.Length && at <= |all| && dst[..at] == all[..at] && Incoming() == all[at..]
    }

    /** `at` events of the script have been used and nothing is buffered. */
    ghost predicate Trickling(script: seq<IoEvent>, at: nat)
      reads this, rd, inner
    {
      rd.pos == rd.cap && |inner.rscript| + at == |script|
    }

    /** The next read of a vector filled up to `at`. */
    method ReadMore(dst: array<byte>, at: nat, ghost all: Bytes, ghost script: seq<IoEvent>, ghost k: nat)
      returns (g: Result<nat, IoError>)
      requires dst != rd.buf && dst != wr.buf && at < dst.Length && Filled(dst, at, all)
      requires Remains(script, inner.rscript) && !Stalled(script, inner.rscript)
      modifies rd, rd.buf, inner`incoming, inner`rscript, dst
      ensures Filled(dst, if g.Ok? then at + g.value else at, all)
      ensures g == Ok(0) ==> at == |all|
      ensures g.Err? ==> ReadFailure(g.error)
      ensures Remains(script, inner.rscript) && (g == Err(Cancelled(0)) <==> Stalled(script, inner.rscript))
      ensures |inner.rscript| <= |old(inner.rscript)|
      ensures g == Err(Interrupted) ==> |inner.rscript| < |old(inner.rscript)|
      ensures Calm(script) && g.Err? ==> g.error.Interrupted?
      ensures Trickles(script, k) && old(Trickling(script, at)) && at < k && at < |all| ==>
              g == Ok(1) && Trickling(script, at + 1)
      ensures Trickles(script, k) && old(Trickling(script, at)) && at == k ==> g == Err(Cancelled(0))
    {
      ghost var mid := inner.rscript;
      if Calm(script) { CalmRemains(script, mid); }
      g := rd.ReadBuffered(inner, dst, at, dst.Length);
      RemainsStep(script, mid, inner.rscript);
      if g.Ok? {
        assert dst[..at + g.value] == all[..at] + all[at..][..g.value] == all[..at + g.value];
      }
    }

    /** The loop of read_exact: how far it got, and why it stopped early. */
    method FillUp(dst: array<byte>, ghost all: Bytes, ghost script: seq<IoEvent>, ghost k: nat)
      returns (at: nat, e: Option<IoError>)
      requires dst != rd.buf && dst != wr.buf && Filled(dst, 0, all) && inner.rscript == script
      modifies rd, rd.buf, inner`incoming, inner`rscript, dst
      ensures Filled(dst, at, all) && (e.None? <==> at == dst.Length)
      ensures e == Some(UnexpectedEof) ==> at == |all|
      ensures e.Some? && e.value.Cancelled? ==> e == Some(Cancelled(at))
      ensures Remains(script, inner.rscript) && (e.Some? && e.value.Cancelled? <==> Stalled(script, inner.rscript))
      ensures old(StallsAfter(dst.Length, k)) ==> e == Some(Cancelled(k))
      ensures Calm(script) && e.Some? ==> e == Some(UnexpectedEof)
    {
      ghost var slow := StallsAfter(dst.Length, k);
      at := 0;
      while at < dst.Length
        invariant Filled(dst, at, all)
        invariant Remains(script, inner.rscript) && !Stalled(script, inner.rscript)
        invariant slow ==> at <= k && Trickling(script, at)
        decreases dst.Length - at, |inner.rscript|
      {
        var g := ReadMore(dst, at, all, script, k);
        match g {
          case Ok(n) =>
            if n == 0 { return at, Some(UnexpectedEof); }
            at := at + n;
          case Err(x) =>
            if x.Cancelled? { return at, Some(Cancelled(at)); }
            if !x.Interrupted? { return at, Some(x); }
        }
      }
      return at, None;
    }

    /** read_exact through the buffer: on success exactly the next bytes of the pipe, however
        the socket cut them up; with no failing read it succeeds iff there are enough bytes. It is
        cancelled iff the socket stalls, and then the bytes delivered so far are gone. */
    method ReadExact(dst: array<byte>, ghost k: nat := 0) returns (r: Result<(), IoError>)
      requires Valid() && dst != rd.buf && dst != wr.buf
      modifies rd, rd.buf, inner`incoming, inner`rscript, dst
      ensures Valid()
      ensures r.Ok? ==> dst.Length <= |old(Incoming())| && dst[..] == old(Incoming())[..dst.Length]
                        && Incoming() == old(Incoming())[dst.Length..]
      ensures r == Err(UnexpectedEof) ==> |old(Incoming())| < dst.Length
      ensures r.Err? && r.error.Cancelled? <==> Stalled(old(inner.rscript), inner.rscript)
      ensures r.Err? && r.error.Cancelled? ==> CutAt(dst.Length, old(Incoming()), r.error.delivered, Incoming())
      ensures old(StallsAfter(dst.Length, k)) ==> r == Err(Cancelled(k))
      ensures |Incoming()| <= |old(Incoming())|
      ensures Remains(old(inner.rscript), inner.rscript)
      ensures Calm(old(inner.rscript)) && r.Err? ==> r.error.UnexpectedEof?
    {
      var at, e := FillUp(dst, Incoming(), inner.rscript, k);
      if e.Some? { return Err(e.value); }
      assert dst[..at] == dst[..];
      return Ok(());
    }

    /** A vector resized to `n` and filled by read_exact. */
    method ReadN(n: nat, ghost k: nat := 0) returns (r: Result<Bytes, IoError>)
      requires Valid()
      modifies rd, rd.buf, inner`incoming, inner`rscript
      ensures Valid()
      ensures r.Ok? ==> n <= |old(Incoming())| && r.value == old(Incoming())[..n] && Incoming() == old(Incoming())[n..]
      ensures r == Err(UnexpectedEof) ==> |old(Incoming())| < n
      ensures r.Err? && r.error.Cancelled? <==> Stalled(old(inner.rscript), inner.rscript)
      ensures r.Err? && r.error.Cancelled? ==> CutAt(n, old(Incoming()), r.error.delivered, Incoming())
      ensures old(StallsAfter(n, k)) ==> r == Err(Cancelled(k))
      ensures |Incoming()| <= |old(Incoming())|
      ensures Remains(old(inner.rscript), inner.rscript)
      ensures Calm(old(inner.rscript)) ==> Calm(inner.rscript) && (r.Err? ==> r.error.UnexpectedEof?)
    {
      var dst := new byte[n](_ => 0);
      ghost var script := inner.rscript;
      var g := ReadExact(dst, k);
      if Calm(script) { CalmRemains(script, inner.rscript); }
      if g.Err? { return Err(g.error); }
      return Ok(dst[..]);
    }

    /** write_all through the buffer. A failure leaves only a prefix of what was accepted on the
        wire. */
    method WriteAll(src: Bytes) returns (r: Result<(), IoError>)
      requires Valid()
      modifies wr, wr.buf, inner`outgoing, inner`wscript
      ensures Valid()
      ensures r.Ok? ==> Accepted() == old(Accepted()) + src
      ensures r.Err? ==> old(inner.outgoing) <= inner.outgoing <= old(Accepted()) + src
      ensures Lively(old(inner.wscript)) ==> Lively(inner.wscript) && r.Ok?
    {
      ghost var out0, acc0 := inner.outgoing, Accepted();
      var at := 0;
      while at < |src|
        invariant Valid() && at <= |src| && Accepted() == acc0 + src[..at] && out0 <= inner.outgoing
        invariant Lively(old(inner.wscript)) ==> Lively(inner.wscript)
        decreases |src| - at, |inner.wscript|
      {
        var w := wr.WriteBuffered(inner, src[at..]);
        match w {
          case Ok(n) =>
            if n == 0 {
              assert inner.outgoing <= Accepted() == acc0 + src[..at] <= acc0 + src;
              return Err(WriteZero);
            }
            assert src[..at] + src[at..][..n] == src[..at + n];
            at := at + n;
          case Err(e) =>
            if !e.Interrupted? {
              assert acc0 + src[..at] <= acc0 + src;
              return Err(e);
            }
        }
      }
      assert src[..at] == src;
      return Ok(());
    }

    /** After a flush the wire carries everything accepted. */
    method Flush() returns (r: Result<(), IoError>)
      requires Valid()
      modifies wr, inner`outgoing, inner`wscript
      ensures Valid()
      ensures r.Ok? ==> inner.outgoing == old(Accepted()) == Accepted()
      ensures r.Err? ==> old(inner.outgoing) <= inner.outgoing <= old(Accepted())
      ensures Lively(old(inner.wscript)) ==> Lively(inner.wscript) && r.Ok?
    {
      r := wr.Flush(inner);
    }
  }

  function Concat(parts: seq<Bytes>): Bytes {
    if parts == [] then [] else Concat(parts[..|parts| - 1]) + parts[|parts| - 1]
  }

  /** Any number of write_all calls and one flush put exactly the concatenation on the wire. */
  method WriteParts(s: BufStream, parts: seq<Bytes>) returns (r: Result<(), IoError>)
    requires s.Valid()
    modifies s.wr, s.wr.buf, s.inner`outgoing, s.inner`wscript
    ensures s.Valid()
    ensures r.Ok? ==> s.inner.outgoing == old(s.Accepted()) + Concat(parts)
    ensures Lively(old(s.inner.wscript)) ==> r.Ok?
  {
    var k := 0;
    while k < |parts|
      invariant k <= |parts| && s.Valid() && s.Accepted() == old(s.Accepted()) + Concat(parts[..k])
      invariant Lively(old(s.inner.wscript)) ==> Lively(s.inner.wscript)
    {
      var w := s.WriteAll(parts[k]);
      if w.Err? { return w; }
      assert parts[..k + 1][..k] == parts[..k];
      k := k + 1;
    }
    assert parts[..k] == parts;
    r := s.Flush();
  }
}
