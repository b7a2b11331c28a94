/** Shared vocabulary: bytes, options, and the text checks the protocol relies on. */
module Prelude {

  type byte = b: int | 0 <= b < 256

  type Bytes = seq<byte>

  datatype Option<+T> = None | Some(value: T)

  datatype Result<+T, +E> = Ok(value: T) | Err(error: E)

  predicate Continuation(b: byte) {
    0x80 <= b < 0xc0
  }

  /** Length of the UTF-8 sequence at the head of `s` (the table of well-formed byte sequences in
      section 4 of RFC 3629), or 0 if there is none. */
  function Utf8Head(s: Bytes): (n: nat)
    requires s != []
    ensures n <= |s| && n <= 4
  {
    if s[0] < 0x80 then 1
    else if 0xc2 <= s[0] < 0xe0 && |s| >= 2 && Continuation(s[1]) then 2
    else if 0xe0 <= s[0] < 0xf0 && |s| >= 3 && Continuation(s[1]) && Continuation(s[2])
         && (s[0] == 0xe0 ==> 0xa0 <= s[1]) && (s[0] == 0xed ==> s[1] < 0xa0) then 3
    else if 0xf0 <= s[0] < 0xf5 && |s| >= 4 && Continuation(s[1]) && Continuation(s[2]) && Continuation(s[3])
         && (s[0] == 0xf0 ==> 0x90 <= s[1]) && (s[0] == 0xf4 ==> s[1] < 0x90) then 4
    else 0
  }

  predicate Utf8(s: Bytes) {
    s == [] || (Utf8Head(s) > 0 && Utf8(s[Utf8Head(s)..]))
  }

  function Ascii(s: string): (b: Bytes)
    requires forall i :: 0 <= i < |s| ==> s[i] < 128 as char
    ensures |b| == |s| && forall i :: 0 <= i < |s| ==> b[i] == s[i] as int
  {
    seq(|s|, i requires 0 <= i < |s| => s[i] as int)
  }

  lemma {:induction false} AsciiIsUtf8(b: Bytes)
    requires forall i :: 0 <= i < |b| ==> b[i] < 128
    ensures Utf8(b)
  {
    if b != [] { AsciiIsUtf8(b[1..]); }
  }

  lemma Assoc(a: Bytes, b: Bytes, c: Bytes)
    ensures (a + b) + c == a + (b + c)
  {
  }

  // ---------- Division ----------

  lemma MulGe(d: int, l: int)
    requires d >= 1 && l >= 0
    ensures d * l >= l
  {
    assert (d - 1) * l >= 0;
  }

  lemma SmallMultiple(d: int, l: int)
    requires -l < d * l < l
    ensures d == 0
  {
    assert (-d) * l == -(d * l);
    if d >= 1 {
      MulGe(d, l);
    } else if d <= -1 {
      MulGe(-d, l);
    }
  }

  lemma DivModUnique(x: nat, l: nat, q: nat, r: nat)
    requires r < l && x == q * l + r
    ensures x / l == q && x % l == r
  {
    var a, b := x / l, x % l;
    assert x == a * l + b;
    assert (q - a) * l == q * l - a * l;
    SmallMultiple(q - a, l);
  }
}
