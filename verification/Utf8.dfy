/**
 UTF-8 as section 3 of RFC 3629 defines it: `str::as_bytes` and the strict
 `str::from_utf8` that every name, string constant and string map key of the
 wire formats goes through.
 */
module Utf8 {
  import opened Common

  function CharLen(c: char): (n: nat) {
    var n := c as int;
    if n < 0x80 then 1 else if n < 0x800 then 2 else if n < 0x1_0000 then 3 else 4
  }

  // `str::len`
  function ByteLen(s: string): (n: nat) {
    if s == [] then 0 else CharLen(s[0]) + ByteLen(s[1..])
  }

  function EncodeChar(c: char): (bs: Bytes)
    ensures |bs| == CharLen(c)
  {
    var n := c as int;
    if n < 0x80 then [n]
    else if n < 0x800 then [0xC0 + n / 64, 0x80 + n % 64]
    else if n < 0x1_0000 then [0xE0 + n / 4096, 0x80 + n / 64 % 64, 0x80 + n % 64]
    else [0xF0 + n / 262144, 0x80 + n / 4096 % 64, 0x80 + n / 64 % 64, 0x80 + n % 64]
  }

  // `str::as_bytes`
  function Encode(s: string): (bs: Bytes)
    ensures |bs| == ByteLen(s)
  {
    if s == [] then [] else EncodeChar(s[0]) + Encode(s[1..])
  }

  predicate IsContinuation(b: U8) {
    0x80 <= b < 0xC0
  }

  // Six more payload bits below those already read.
  function Join(high: int, b: U8): (n: int)
    requires IsContinuation(b)
    ensures n / 64 == high && n % 64 == b - 0x80
  {
    high * 64 + (b - 0x80)
  }

  datatype Scalar = Scalar(c: char, size: nat)

  // The scalar at the front of `bs`. Overlong forms, surrogates and anything
  // above U+10FFFF are rejected.
  function DecodeChar(bs: Bytes): (r: Option<Scalar>)
    ensures r.Some? ==> 1 <= r.value.size <= |bs|
  {
    if |bs| == 0 then None
    else if bs[0] < 0x80 then Some(Scalar(bs[0] as char, 1))
    else if 0xC0 <= bs[0] < 0xE0 && |bs| >= 2 && IsContinuation(bs[1]) then
      var n := Join(bs[0] - 0xC0, bs[1]);
      if n < 0x80 then None else Some(Scalar(n as char, 2))
    else if 0xE0 <= bs[0] < 0xF0 && |bs| >= 3 && IsContinuation(bs[1]) && IsContinuation(bs[2]) then
      var n := Join(Join(bs[0] - 0xE0, bs[1]), bs[2]);
      if n < 0x800 || 0xD800 <= n < 0xE000 then None else Some(Scalar(n as char, 3))
    else if 0xF0 <= bs[0] < 0xF8 && |bs| >= 4
            && IsContinuation(bs[1]) && IsContinuation(bs[2]) && IsContinuation(bs[3]) then
      var n := Join(Join(Join(bs[0] - 0xF0, bs[1]), bs[2]), bs[3]);
      if n < 0x1_0000 || 0x11_0000 <= n then None else Some(Scalar(n as char, 4))
    else None
  }

  function Decode(bs: Bytes): Option<string> {
    if bs == [] then Some([])
    else
      var head := DecodeChar(bs);
      if head.None? then None
      else
        var tail := Decode(bs[head.value.size..]);
        if tail.None? then None else Some([head.value.c] + tail.value)
  }

  lemma {:induction false} DecodeCharUndoesEncode(c: char, rest: Bytes)
    ensures DecodeChar(EncodeChar(c) + rest) == Some(Scalar(c, |EncodeChar(c)|))
  {
    var n := c as int;
    assert n / 64 / 64 == n / 4096 && n / 4096 / 64 == n / 262144;
  }

  lemma {:induction false} DecodeCharIsCanonical(bs: Bytes)
    requires DecodeChar(bs).Some?
    ensures bs[..DecodeChar(bs).value.size] == EncodeChar(DecodeChar(bs).value.c)
  {
    var n := DecodeChar(bs).value.c as int;
    assert n / 64 / 64 == n / 4096 && n / 4096 / 64 == n / 262144;
  }

  lemma {:induction false} DecodeUndoesEncode(s: string)
    ensures Decode(Encode(s)) == Some(s)
  {
    if s != [] {
      DecodeUndoesEncode(s[1..]);
      DecodeCharUndoesEncode(s[0], Encode(s[1..]));
      DecodeStep(EncodeChar(s[0]), Encode(s[1..]), s[0], s[1..]);
      assert s == [s[0]] + s[1..];
    }
  }

  lemma {:induction false} DecodeStep(head: Bytes, tail: Bytes, c: char, text: string)
    requires head != [] && DecodeChar(head + tail) == Some(Scalar(c, |head|)) && Decode(tail) == Some(text)
    ensures Decode(head + tail) == Some([c] + text)
  {
    assert (head + tail)[|head|..] == tail;
  }

  lemma {:induction false} EncodeUndoesDecode(bs: Bytes)
    ensures Decode(bs).Some? ==> Encode(Decode(bs).value) == bs
  {
    if bs != [] && Decode(bs).Some? {
      var Scalar(c, size) := DecodeChar(bs).value;
      assert bs[..size] == EncodeChar(c) by { DecodeCharIsCanonical(bs); }
      EncodeUndoesDecode(bs[size..]);
      EncodeStep(bs, size, c, Decode(bs[size..]).value);
    }
  }

  lemma {:induction false} EncodeStep(bs: Bytes, size: nat, c: char, text: string)
    requires size <= |bs| && bs[..size] == EncodeChar(c) && bs[size..] == Encode(text)
    ensures Encode([c] + text) == bs
  {
    assert ([c] + text)[1..] == text;
    assert bs == bs[..size] + bs[size..];
  }
}
