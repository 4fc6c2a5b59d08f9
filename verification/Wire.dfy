/**
 Little-endian integers and length-prefixed strings: the leaves of the BFV0
 layout (byteflow/src/bytecode/format.rs).

 A reader is a function from the unread bytes to a value and what is left.
 */
module Wire {
  import opened Common
  import opened Trust

  datatype Parsed<+T> = Parsed(value: T, rest: Bytes)

  lemma {:induction false} CatAssoc<T>(a: seq<T>, b: seq<T>, c: seq<T>)
    ensures a + b + c == a + (b + c)
  {
  }

  // A sequence is its head in front of its tail.
  lemma {:induction false} ConsHead<T>(s: seq<T>)
    requires s != []
    ensures s == [s[0]] + s[1..]
  {
  }

  function Pow256(width: nat): (p: int)
    ensures p > 0
  {
    if width == 0 then 1 else 256 * Pow256(width - 1)
  }

  lemma {:induction false} Pow256Values()
    ensures Pow256(1) == 0x100 && Pow256(2) == 0x1_0000 && Pow256(4) == 0x1_0000_0000
    ensures Pow256(8) == 0x1_0000_0000_0000_0000
    ensures Pow256(16) == 0x1_0000_0000_0000_0000_0000_0000_0000_0000
  {
    assert Pow256(3) == 256 * Pow256(2) && Pow256(6) == 0x1_0000 * Pow256(4);
    assert Pow256(8) == 0x1_0000 * Pow256(6) && Pow256(10) == 0x1_0000 * Pow256(8);
    assert Pow256(12) == 0x1_0000 * Pow256(10) && Pow256(14) == 0x1_0000 * Pow256(12);
    assert Pow256(16) == 0x1_0000 * Pow256(14);
  }

  // `to_le_bytes` of the low `8 * width` bits of `n`.
  function LittleEndian(n: nat, width: nat): (bs: Bytes)
    ensures |bs| == width
  {
    if width == 0 then [] else [n % 256] + LittleEndian(n / 256, width - 1)
  }

  // `from_le_bytes`
  function FromLittleEndian(bs: Bytes): (n: nat) {
    if bs == [] then 0 else bs[0] + 256 * FromLittleEndian(bs[1..])
  }

  lemma {:induction false} FromLittleEndianInverts(n: nat, width: nat)
    requires n < Pow256(width)
    ensures FromLittleEndian(LittleEndian(n, width)) == n
  {
    if width > 0 {
      FromLittleEndianInverts(n / 256, width - 1);
      assert LittleEndian(n, width)[1..] == LittleEndian(n / 256, width - 1);
    }
  }

  lemma {:induction false} LittleEndianInverts(bs: Bytes)
    ensures FromLittleEndian(bs) < Pow256(|bs|)
    ensures LittleEndian(FromLittleEndian(bs), |bs|) == bs
  {
    if bs != [] {
      LittleEndianInverts(bs[1..]);
      assert bs == [bs[0]] + bs[1..];
    }
  }

  datatype FormatError =
    | BadMagic(found: Bytes)
    | UnsupportedAbi(version: U32)
    | Truncated
    | LimitExceeded(what: string, got: U32)
    | BadUtf8
    | UnknownValueTag(tag: U8)
    | UnknownMapKey(key: U8)
    | NonCanonicalBool(byte: U8)
    | UnknownOpcode(at: nat, opcode: U8)
    | ForbiddenConstant(kind: ConstantKind)
    | ValueTooNested
    | DuplicateMapKey
    | Trailing(leftover: nat)

  // `Reader::take`
  function Take(bs: Bytes, n: nat): (r: Result<Parsed<Bytes>, FormatError>)
    ensures r.Ok? <==> n <= |bs|
    ensures r.Ok? ==> |r.value.value| == n && |r.value.rest| == |bs| - n
  {
    if |bs| < n then Err(Truncated) else Ok(Parsed(bs[..n], bs[n..]))
  }

  // `Reader::read_u16`, `read_u32`, `read_u64` and `read_u128`, by width.
  function ReadUint(bs: Bytes, width: nat): (r: Result<Parsed<nat>, FormatError>)
    ensures r.Ok? <==> width <= |bs|
    ensures r.Ok? ==> r.value.value < Pow256(width) && |r.value.rest| == |bs| - width
  {
    if |bs| < width then Err(Truncated)
    else
      LittleEndianInverts(bs[..width]);
      Ok(Parsed(FromLittleEndian(bs[..width]), bs[width..]))
  }

  lemma {:induction false} ReadUintIsCanonical(bs: Bytes, width: nat)
    requires width <= |bs|
    ensures var Parsed(n, rest) := ReadUint(bs, width).value; bs == LittleEndian(n, width) + rest
  {
    LittleEndianInverts(bs[..width]);
  }

  lemma {:induction false} ReadWrittenUint(n: nat, width: nat, rest: Bytes)
    requires n < Pow256(width)
    ensures ReadUint(LittleEndian(n, width) + rest, width) == Ok(Parsed(n, rest))
  {
    FromLittleEndianInverts(n, width);
    var bs := LittleEndian(n, width) + rest;
    assert bs[..width] == LittleEndian(n, width) && bs[width..] == rest;
  }

  // --------------------------------------------------------------- sequences

  // `n` things in a row, each read where the one before it ended.
  function ReadMany<T>(read: Bytes -> Result<Parsed<T>, FormatError>, bs: Bytes, n: nat)
    : (r: Result<Parsed<seq<T>>, FormatError>)
    ensures r.Ok? ==> |r.value.value| == n
    decreases n
  {
    if n == 0 then Ok(Parsed([], bs))
    else
      var Parsed(head, r1) :- read(bs);
      var Parsed(tail, rest) :- ReadMany(read, r1, n - 1);
      Ok(Parsed([head] + tail, rest))
  }

  function WriteMany<T>(write: T -> Bytes, xs: seq<T>): Bytes {
    if xs == [] then [] else write(xs[0]) + WriteMany(write, xs[1..])
  }

  // Writing undoes reading.
  ghost predicate WriteInverts<T(!new)>(
    read: Bytes -> Result<Parsed<T>, FormatError>, write: T -> Bytes, ok: T -> bool)
  {
    forall bs: Bytes :: read(bs).Ok? ==>
      ok(read(bs).value.value) && bs == write(read(bs).value.value) + read(bs).value.rest
  }

  // Reading undoes writing.
  ghost predicate ReadInverts<T(!new)>(
    read: Bytes -> Result<Parsed<T>, FormatError>, write: T -> Bytes, ok: T -> bool)
  {
    forall x: T, rest: Bytes :: ok(x) ==> read(write(x) + rest) == Ok(Parsed(x, rest))
  }

  lemma {:induction false} ReadManyIsCanonical<T(!new)>(
    read: Bytes -> Result<Parsed<T>, FormatError>, write: T -> Bytes, ok: T -> bool, bs: Bytes, n: nat)
    requires WriteInverts(read, write, ok) && ReadMany(read, bs, n).Ok?
    ensures
      var Parsed(xs, rest) := ReadMany(read, bs, n).value;
      bs == WriteMany(write, xs) + rest && forall x | x in xs :: ok(x)
    decreases n
  {
    if n > 0 {
      var Parsed(head, r1) := read(bs).value;
      var Parsed(tail, rest) := ReadMany(read, r1, n - 1).value;
      ReadManyIsCanonical(read, write, ok, r1, n - 1);
      assert ([head] + tail)[1..] == tail;
      CatAssoc(write(head), WriteMany(write, tail), rest);
    }
  }

  lemma {:induction false} ReadWrittenMany<T(!new)>(
    read: Bytes -> Result<Parsed<T>, FormatError>, write: T -> Bytes, ok: T -> bool, xs: seq<T>, rest: Bytes)
    requires ReadInverts(read, write, ok) && forall x | x in xs :: ok(x)
    ensures ReadMany(read, WriteMany(write, xs) + rest, |xs|) == Ok(Parsed(xs, rest))
    decreases |xs|
  {
    if xs == [] {
      assert WriteMany(write, xs) + rest == rest;
    } else {
      CatAssoc(write(xs[0]), WriteMany(write, xs[1..]), rest);
      ReadWrittenMany(read, write, ok, xs[1..], rest);
      assert ok(xs[0]);
      ConsHead(xs);
    }
  }
}
