/**
 Whole BFV0 modules (byteflow/src/bytecode/format.rs): header, constant pool,
 function table and code, and the choice of the header version.
 */
module ModuleFormat {
  import opened Common
  import opened Values
  import opened Chunks
  import opened Trust
  import opened Wire
  import opened Codec
  import Utf8

  const MAGIC: Bytes := [0x42, 0x46, 0x56, 0x30] // "BFV0"
  const MAX_NAME := 65_536
  const MAX_ITEMS := 1_000_000

  // ---------------------------------------------------------- header version

  predicate ContainsRecord(v: Value) {
    match v
    case Record(_) => true
    case List(items) => exists i | 0 <= i < |items| :: ContainsRecord(items[i])
    case Map(entries) => exists i | 0 <= i < |entries| :: ContainsRecord(entries[i].value)
    case Msg(m) => ContainsRecord(m.payload)
    case _ => false
  }

  predicate ContainsMap(v: Value) {
    match v
    case Map(_) => true
    case List(items) => exists i | 0 <= i < |items| :: ContainsMap(items[i])
    case Record(fields) => exists i | 0 <= i < |fields| :: ContainsMap(fields[i])
    case Msg(m) => ContainsMap(m.payload)
    case _ => false
  }

  predicate ContainsList(v: Value) {
    match v
    case List(_) => true
    case Record(fields) => exists i | 0 <= i < |fields| :: ContainsList(fields[i])
    case Map(entries) => exists i | 0 <= i < |entries| :: ContainsList(entries[i].value)
    case Msg(m) => ContainsList(m.payload)
    case _ => false
  }

  // `module_abi`
  function ModuleAbi(constants: seq<Value>): (abi: U32) {
    if exists i | 0 <= i < |constants| :: ContainsRecord(constants[i]) then ABI_VERSION_RECORDS
    else if exists i | 0 <= i < |constants| :: ContainsMap(constants[i]) then ABI_VERSION_MAPS
    else if exists i | 0 <= i < |constants| :: ContainsList(constants[i]) then ABI_VERSION_LISTS
    else ABI_VERSION
  }

  predicate KnownAbi(abi: nat) {
    abi == ABI_VERSION || abi == ABI_VERSION_LISTS || abi == ABI_VERSION_MAPS || abi == ABI_VERSION_RECORDS
  }

  lemma {:induction false} ItemsRepresentableIffAll(items: seq<Value>, abi: nat)
    ensures ItemsRepresentable(items, abi) <==> forall i | 0 <= i < |items| :: Representable(items[i], abi)
  {
    if items != [] {
      ItemsRepresentableIffAll(items[1..], abi);
      assert forall i | 1 <= i < |items| :: items[i] == items[1..][i - 1];
      assert ItemsRepresentable(items[1..], abi) <==> forall i | 1 <= i < |items| :: Representable(items[i], abi);
    }
  }

  lemma {:induction false} EntriesRepresentableIffAll(entries: seq<Entry>, abi: nat)
    ensures EntriesRepresentable(entries, abi)
      <==> forall i | 0 <= i < |entries| :: Representable(entries[i].value, abi)
  {
    if entries != [] {
      EntriesRepresentableIffAll(entries[1..], abi);
      assert forall i | 1 <= i < |entries| :: entries[i] == entries[1..][i - 1];
      assert EntriesRepresentable(entries[1..], abi)
        <==> forall i | 1 <= i < |entries| :: Representable(entries[i].value, abi);
    }
  }

  // The three walks together decide whether a header version is new enough,
  // although each stops descending at the container it looks for.
  predicate WalksAdmit(v: Value, abi: nat) {
    && (ContainsRecord(v) ==> abi >= ABI_VERSION_RECORDS)
    && (ContainsMap(v) ==> abi >= ABI_VERSION_MAPS)
    && (ContainsList(v) ==> abi >= ABI_VERSION_LISTS)
  }

  lemma {:induction false} WalksDecideRepresentable(v: Value, abi: nat)
    requires KnownAbi(abi)
    ensures Representable(v, abi) <==> WalksAdmit(v, abi)
    decreases v
  {
    match v
    case Msg(m) => WalksDecideRepresentable(m.payload, abi);
    case List(items) =>
      ItemsRepresentableIffAll(items, abi);
      forall i | 0 <= i < |items| ensures Representable(items[i], abi) <==> WalksAdmit(items[i], abi) {
        WalksDecideRepresentable(items[i], abi);
      }
    case Record(fields) =>
      ItemsRepresentableIffAll(fields, abi);
      forall i | 0 <= i < |fields| ensures Representable(fields[i], abi) <==> WalksAdmit(fields[i], abi) {
        WalksDecideRepresentable(fields[i], abi);
      }
    case Map(entries) =>
      EntriesRepresentableIffAll(entries, abi);
      forall i | 0 <= i < |entries|
        ensures Representable(entries[i].value, abi) <==> WalksAdmit(entries[i].value, abi)
      {
        WalksDecideRepresentable(entries[i].value, abi);
      }
    case _ =>
  }

  lemma {:induction false} ModuleAbiDecidesRepresentable(constants: seq<Value>, abi: nat)
    requires KnownAbi(abi)
    ensures ItemsRepresentable(constants, abi) <==> ModuleAbi(constants) <= abi
  {
    ItemsRepresentableIffAll(constants, abi);
    forall i | 0 <= i < |constants| ensures Representable(constants[i], abi) <==> WalksAdmit(constants[i], abi) {
      WalksDecideRepresentable(constants[i], abi);
    }
  }

  // ---------------------------------------------------------------- encoding

  function WriteString(s: string): Bytes {
    WriteBlob(Utf8.Encode(s))
  }

  function WriteFunction(def: FunctionDef): Bytes {
    WriteString(def.name) + (LittleEndian(def.entry, 4) + [def.arity, def.numRegisters])
  }

  function WriteFunctions(functions: seq<FunctionDef>): Bytes {
    WriteMany(WriteFunction, functions)
  }

  function WriteInstruction(instr: Instruction): (bs: Bytes)
    ensures |bs| == 8
  {
    [instr.op, instr.a, instr.b, instr.c] + LittleEndian(AsU32(instr.imm), 4)
  }

  function WriteCode(code: seq<Instruction>): Bytes {
    if code == [] then [] else WriteInstruction(code[0]) + WriteCode(code[1..])
  }

  function WriteTables(chunk: Chunk): Bytes {
    LittleEndian(|chunk.functions|, 4) + (WriteFunctions(chunk.functions) +
      (LittleEndian(|chunk.code|, 4) + WriteCode(chunk.code)))
  }

  function WritePool(chunk: Chunk): Bytes {
    WriteString(chunk.name) + (LittleEndian(|chunk.constants|, 4) + (WriteItems(chunk.constants) + WriteTables(chunk)))
  }

  // The module under a given header version.
  function EncodeAs(chunk: Chunk, abi: U32): Bytes {
    MAGIC + (LittleEndian(abi, 4) + WritePool(chunk))
  }

  // `encode`
  function Encode(chunk: Chunk): Bytes {
    EncodeAs(chunk, ModuleAbi(chunk.constants))
  }

  // ---------------------------------------------------------------- decoding

  // `Reader::read_string`
  function ReadString(bs: Bytes): (r: Result<Parsed<string>, FormatError>)
    ensures r.Ok? ==> |r.value.rest| < |bs|
  {
    var Parsed(len, r1) :- ReadCount(bs, MAX_NAME, "name");
    var Parsed(raw, rest) :- Take(r1, len);
    match Utf8.Decode(raw)
    case None => Err(BadUtf8)
    case Some(s) => Ok(Parsed(s, rest))
  }

  function ReadFunction(bs: Bytes): (r: Result<Parsed<FunctionDef>, FormatError>)
    ensures r.Ok? ==> |r.value.rest| < |bs|
  {
    Pow256Values();
    var Parsed(name, r1) :- ReadString(bs);
    var Parsed(entry, r2) :- ReadUint(r1, 4);
    if |r2| < 2 then Err(Truncated)
    else Ok(Parsed(FunctionDef(name, entry, r2[0], r2[1]), r2[2..]))
  }

  function ReadFunctions(bs: Bytes, n: nat): (r: Result<Parsed<seq<FunctionDef>>, FormatError>) {
    ReadMany(ReadFunction, bs, n)
  }

  // One instruction, the `at`-th. The opcode byte is judged before its operands
  // are read.
  function ReadInstruction(bs: Bytes, at: nat): (r: Result<Parsed<Instruction>, FormatError>)
    ensures r.Ok? ==> |r.value.rest| == |bs| - 8
  {
    if bs == [] then Err(Truncated)
    else if FromU8(bs[0]).None? then Err(UnknownOpcode(at, bs[0]))
    else if |bs| < 4 then Err(Truncated)
    else
      Pow256Values();
      var Parsed(n, rest) :- ReadUint(bs[4..], 4);
      var imm := if n < 0x8000_0000 then n else n - 0x1_0000_0000;
      Ok(Parsed(Instruction(FromU8(bs[0]).value, bs[1], bs[2], bs[3], imm), rest))
  }

  function ReadCode(bs: Bytes, n: nat, at: nat): (r: Result<Parsed<seq<Instruction>>, FormatError>)
    ensures r.Ok? ==> |r.value.value| == n
    decreases |bs|
  {
    if n == 0 then Ok(Parsed([], bs))
    else
      var Parsed(head, r1) :- ReadInstruction(bs, at);
      var Parsed(tail, rest) :- ReadCode(r1, n - 1, at + 1);
      Ok(Parsed([head] + tail, rest))
  }

  function ReadTables(bs: Bytes, name: string, constants: seq<Value>): (r: Result<Chunk, FormatError>) {
    var Parsed(n, r1) :- ReadCount(bs, MAX_ITEMS, "functions");
    var Parsed(functions, rest) :- ReadFunctions(r1, n);
    ReadBody(rest, name, constants, functions)
  }

  // The code and the end of the buffer.
  function ReadBody(bs: Bytes, name: string, constants: seq<Value>, functions: seq<FunctionDef>)
    : (r: Result<Chunk, FormatError>)
  {
    var Parsed(n, r1) :- ReadCount(bs, MAX_ITEMS, "code");
    var Parsed(code, rest) :- ReadCode(r1, n, 0);
    if rest != [] then Err(Trailing(|rest|)) else Ok(Chunk(name, constants, code, functions))
  }

  function ReadPool(bs: Bytes, trust: TrustLevel, abi: nat): (r: Result<Chunk, FormatError>) {
    var Parsed(name, r1) :- ReadString(bs);
    var Parsed(n, r2) :- ReadCount(r1, MAX_ITEMS, "constants");
    var Parsed(constants, rest) :- ReadItems(r2, n, trust, 0, abi);
    ReadTables(rest, name, constants)
  }

  // `decode_with`
  function DecodeWith(bs: Bytes, trust: TrustLevel): (r: Result<Chunk, FormatError>) {
    var Parsed(magic, r1) :- Take(bs, 4);
    if magic != MAGIC then Err(BadMagic(magic))
    else
      Pow256Values();
      var Parsed(abi, rest) :- ReadUint(r1, 4);
      if !KnownAbi(abi) then Err(UnsupportedAbi(abi)) else ReadPool(rest, trust, abi)
  }

  // ------------------------------------------------------------------ limits

  predicate NameFits(s: string) {
    Utf8.ByteLen(s) <= MAX_NAME
  }

  predicate NamesFit(functions: seq<FunctionDef>) {
    forall def | def in functions :: NameFits(def.name)
  }

  // Every limit of the format holds.
  predicate ChunkFits(chunk: Chunk) {
    && NameFits(chunk.name)
    && |chunk.constants| <= MAX_ITEMS
    && (forall i | 0 <= i < |chunk.constants| :: Fits(chunk.constants[i], 0))
    && |chunk.functions| <= MAX_ITEMS
    && NamesFit(chunk.functions)
    && |chunk.code| <= MAX_ITEMS
  }

  // ------------------------------------------------------------ decode(encode)

  lemma {:induction false} ReadWrittenString(s: string, rest: Bytes)
    requires NameFits(s)
    ensures ReadString(WriteString(s) + rest) == Ok(Parsed(s, rest))
  {
    var raw := Utf8.Encode(s);
    CatAssoc(LittleEndian(|raw|, 4), raw, rest);
    ReadWrittenCount(|raw|, MAX_NAME, "name", raw + rest);
    assert (raw + rest)[..|raw|] == raw && (raw + rest)[|raw|..] == rest;
    Utf8.DecodeUndoesEncode(s);
  }

  lemma {:induction false} ReadWrittenFunction(def: FunctionDef, rest: Bytes)
    requires NameFits(def.name)
    ensures ReadFunction(WriteFunction(def) + rest) == Ok(Parsed(def, rest))
  {
    Pow256Values();
    var flags := [def.arity, def.numRegisters];
    var entry := LittleEndian(def.entry, 4);
    CatAssoc(WriteString(def.name), entry + flags, rest);
    CatAssoc(entry, flags, rest);
    ReadWrittenString(def.name, entry + (flags + rest));
    ReadWrittenUint(def.entry, 4, flags + rest);
    assert (flags + rest)[2..] == rest;
  }

  lemma {:induction false} ReadWrittenFunctions(functions: seq<FunctionDef>, rest: Bytes)
    requires NamesFit(functions)
    ensures ReadFunctions(WriteFunctions(functions) + rest, |functions|) == Ok(Parsed(functions, rest))
  {
    var ok := (def: FunctionDef) => NameFits(def.name);
    assert ReadInverts(ReadFunction, WriteFunction, ok) by {
      forall def: FunctionDef, r: Bytes | ok(def) ensures ReadFunction(WriteFunction(def) + r) == Ok(Parsed(def, r)) {
        ReadWrittenFunction(def, r);
      }
    }
    ReadWrittenMany(ReadFunction, WriteFunction, ok, functions, rest);
  }

  lemma {:induction false} ReadWrittenInstruction(instr: Instruction, rest: Bytes, at: nat)
    ensures ReadInstruction(WriteInstruction(instr) + rest, at) == Ok(Parsed(instr, rest))
  {
    Pow256Values();
    ReadWrittenUint(AsU32(instr.imm), 4, rest);
    assert (WriteInstruction(instr) + rest)[4..] == LittleEndian(AsU32(instr.imm), 4) + rest;
  }

  lemma {:induction false} ReadWrittenCode(code: seq<Instruction>, rest: Bytes, at: nat)
    ensures ReadCode(WriteCode(code) + rest, |code|, at) == Ok(Parsed(code, rest))
  {
    if code == [] {
      assert WriteCode(code) + rest == rest;
    } else {
      CatAssoc(WriteInstruction(code[0]), WriteCode(code[1..]), rest);
      ReadWrittenInstruction(code[0], WriteCode(code[1..]) + rest, at);
      ReadWrittenCode(code[1..], rest, at + 1);
      ConsHead(code);
    }
  }

  lemma {:induction false} ReadWrittenTables(chunk: Chunk)
    requires ChunkFits(chunk)
    ensures ReadTables(WriteTables(chunk), chunk.name, chunk.constants) == Ok(chunk)
  {
    var code := LittleEndian(|chunk.code|, 4) + WriteCode(chunk.code);
    ReadWrittenCount(|chunk.functions|, MAX_ITEMS, "functions", WriteFunctions(chunk.functions) + code);
    ReadWrittenFunctions(chunk.functions, code);
    ReadWrittenCount(|chunk.code|, MAX_ITEMS, "code", WriteCode(chunk.code));
    assert WriteCode(chunk.code) + [] == WriteCode(chunk.code);
    ReadWrittenCode(chunk.code, [], 0);
  }

  // Reading a written module back under header version `abi`: the module
  // itself, or the first refusal in its pool. There is none exactly when the
  // version is new enough and the trust level admits every constant.
  lemma {:induction false} DecodeEncoded(chunk: Chunk, abi: U32, trust: TrustLevel)
    requires ChunkFits(chunk) && KnownAbi(abi)
    ensures
      var refused, first := RefusedIn(chunk.constants, trust, abi), FirstAuthorityIn(chunk.constants);
      && DecodeWith(EncodeAs(chunk, abi), trust) == (if refused.None? then Ok(chunk) else Err(refused.value))
      && Decides(refused, ModuleAbi(chunk.constants) <= abi, first, trust)
  {
    RefusedInDecides(chunk.constants, trust, abi);
    ModuleAbiDecidesRepresentable(chunk.constants, abi);
    ReadWrittenHeader(WritePool(chunk), abi, trust);
    ReadWrittenPool(chunk, abi, trust);
  }

  lemma {:induction false} ReadWrittenHeader(pool: Bytes, abi: U32, trust: TrustLevel)
    requires KnownAbi(abi)
    ensures DecodeWith(MAGIC + (LittleEndian(abi, 4) + pool), trust) == ReadPool(pool, trust, abi)
  {
    var body := LittleEndian(abi, 4) + pool;
    Pow256Values();
    assert (MAGIC + body)[..4] == MAGIC && (MAGIC + body)[4..] == body;
    ReadWrittenUint(abi, 4, pool);
  }

  lemma {:induction false} ReadWrittenPool(chunk: Chunk, abi: U32, trust: TrustLevel)
    requires ChunkFits(chunk)
    ensures
      var refused := RefusedIn(chunk.constants, trust, abi);
      ReadPool(WritePool(chunk), trust, abi) == (if refused.None? then Ok(chunk) else Err(refused.value))
  {
    var items := WriteItems(chunk.constants) + WriteTables(chunk);
    ReadWrittenString(chunk.name, LittleEndian(|chunk.constants|, 4) + items);
    ReadWrittenCount(|chunk.constants|, MAX_ITEMS, "constants", items);
    ReadWrittenItems(chunk.constants, WriteTables(chunk), trust, 0, abi);
    ReadWrittenTables(chunk);
  }

  // ------------------------------------------------------------ encode(decode)

  lemma {:induction false} ReadStringIsCanonical(bs: Bytes)
    requires ReadString(bs).Ok?
    ensures var Parsed(s, rest) := ReadString(bs).value; NameFits(s) && bs == WriteString(s) + rest
  {
    ReadCountIsCanonical(bs, MAX_NAME, "name");
    var Parsed(len, r1) := ReadCount(bs, MAX_NAME, "name").value;
    var raw, rest := r1[..len], r1[len..];
    var s := Utf8.Decode(raw).value;
    assert Utf8.Encode(s) == raw by { Utf8.EncodeUndoesDecode(raw); }
    assert r1 == raw + rest;
    CatAssoc(LittleEndian(len, 4), raw, rest);
  }

  lemma {:induction false} ReadFunctionIsCanonical(bs: Bytes)
    requires ReadFunction(bs).Ok?
    ensures var Parsed(def, rest) := ReadFunction(bs).value; NameFits(def.name) && bs == WriteFunction(def) + rest
  {
    var Parsed(def, rest) := ReadFunction(bs).value;
    var r1 := ReadString(bs).value.rest;
    var r2 := ReadUint(r1, 4).value.rest;
    var flags := [def.arity, def.numRegisters];
    assert NameFits(def.name) && bs == WriteString(def.name) + r1 by { ReadStringIsCanonical(bs); }
    assert r1 == LittleEndian(def.entry, 4) + r2 by { ReadUintIsCanonical(r1, 4); }
    assert r2 == flags + rest;
    FunctionSplits(WriteString(def.name), LittleEndian(def.entry, 4), flags, rest);
  }

  lemma {:induction false} FunctionSplits(name: Bytes, entry: Bytes, flags: Bytes, rest: Bytes)
    ensures name + (entry + (flags + rest)) == name + (entry + flags) + rest
  {
  }

  lemma {:induction false} ReadFunctionsIsCanonical(bs: Bytes, n: nat)
    requires ReadFunctions(bs, n).Ok?
    ensures
      var Parsed(functions, rest) := ReadFunctions(bs, n).value;
      bs == WriteFunctions(functions) + rest && NamesFit(functions)
  {
    var ok := (def: FunctionDef) => NameFits(def.name);
    assert WriteInverts(ReadFunction, WriteFunction, ok) by {
      forall b: Bytes | ReadFunction(b).Ok?
        ensures
          var Parsed(def, rest) := ReadFunction(b).value;
          ok(def) && b == WriteFunction(def) + rest
      {
        ReadFunctionIsCanonical(b);
      }
    }
    ReadManyIsCanonical(ReadFunction, WriteFunction, ok, bs, n);
  }

  lemma {:induction false} ReadInstructionIsCanonical(bs: Bytes, at: nat)
    requires ReadInstruction(bs, at).Ok?
    ensures var Parsed(instr, rest) := ReadInstruction(bs, at).value; bs == WriteInstruction(instr) + rest
  {
    Pow256Values();
    ReadUintIsCanonical(bs[4..], 4);
    var Parsed(instr, rest) := ReadInstruction(bs, at).value;
    assert bs == bs[..4] + bs[4..] && bs[..4] == [instr.op, instr.a, instr.b, instr.c];
    CatAssoc(bs[..4], LittleEndian(AsU32(instr.imm), 4), rest);
  }

  lemma {:induction false} ReadCodeIsCanonical(bs: Bytes, n: nat, at: nat)
    requires ReadCode(bs, n, at).Ok?
    ensures var Parsed(code, rest) := ReadCode(bs, n, at).value; bs == WriteCode(code) + rest
    decreases |bs|
  {
    if n > 0 {
      var Parsed(code, rest) := ReadCode(bs, n, at).value;
      ReadInstructionIsCanonical(bs, at);
      ReadCodeIsCanonical(ReadInstruction(bs, at).value.rest, n - 1, at + 1);
      ConsHead(code);
      CatAssoc(WriteInstruction(code[0]), WriteCode(code[1..]), rest);
    }
  }

  lemma {:induction false} ReadTablesIsCanonical(bs: Bytes, name: string, constants: seq<Value>)
    requires ReadTables(bs, name, constants).Ok?
    ensures
      var chunk := ReadTables(bs, name, constants).value;
      && bs == WriteTables(chunk) && chunk.name == name && chunk.constants == constants
      && |chunk.functions| <= MAX_ITEMS && |chunk.code| <= MAX_ITEMS
      && NamesFit(chunk.functions)
  {
    var Parsed(nf, r1) := ReadCount(bs, MAX_ITEMS, "functions").value;
    var Parsed(functions, r2) := ReadFunctions(r1, nf).value;
    var Parsed(nc, r3) := ReadCount(r2, MAX_ITEMS, "code").value;
    var Parsed(code, rest) := ReadCode(r3, nc, 0).value;
    ReadCountIsCanonical(bs, MAX_ITEMS, "functions");
    ReadFunctionsIsCanonical(r1, nf);
    ReadCountIsCanonical(r2, MAX_ITEMS, "code");
    ReadCodeIsCanonical(r3, nc, 0);
    assert r3 == WriteCode(code);
  }

  // The header word of a module.
  function HeaderAbi(bs: Bytes): nat
    requires |bs| >= 8
  {
    FromLittleEndian(bs[4..8])
  }

  // An accepted buffer is the encoding of the chunk it decodes to, except that
  // its header version may be newer than the chunk needs; every limit holds
  // and the verifier's constant check passes.
  lemma {:induction false} DecodeIsCanonical(bs: Bytes, trust: TrustLevel)
    requires DecodeWith(bs, trust).Ok?
    ensures |bs| >= 8 && KnownAbi(HeaderAbi(bs))
    ensures
      var chunk := DecodeWith(bs, trust).value;
      && bs == EncodeAs(chunk, HeaderAbi(bs))
      && ModuleAbi(chunk.constants) <= HeaderAbi(bs)
      && ChunkFits(chunk)
      && Passes(FirstAuthorityIn(chunk.constants), trust)
  {
    var chunk := DecodeWith(bs, trust).value;
    var Parsed(abi, pool) := ReadUint(bs[4..], 4).value;
    ReadUintIsCanonical(bs[4..], 4);
    assert bs[4..][..4] == bs[4..8];
    assert bs == MAGIC + bs[4..];
    var Parsed(name, r1) := ReadString(pool).value;
    var Parsed(n, r2) := ReadCount(r1, MAX_ITEMS, "constants").value;
    var Parsed(constants, rest) := ReadItems(r2, n, trust, 0, abi).value;
    ReadStringIsCanonical(pool);
    ReadCountIsCanonical(r1, MAX_ITEMS, "constants");
    ReadItemsIsCanonical(r2, n, trust, 0, abi);
    ReadTablesIsCanonical(rest, name, constants);
    ModuleAbiDecidesRepresentable(constants, abi);
  }

  // ------------------------------------------------------------ main theorems

  // `decode_with(encode(c), Trusted)` returns `c` exactly for the chunks that
  // respect the format's limits.
  lemma {:induction false} DecodeUndoesEncode(chunk: Chunk)
    ensures DecodeWith(Encode(chunk), Trusted) == Ok(chunk) <==> ChunkFits(chunk)
  {
    if ChunkFits(chunk) {
      DecodeEncoded(chunk, ModuleAbi(chunk.constants), Trusted);
    } else if DecodeWith(Encode(chunk), Trusted) == Ok(chunk) {
      DecodeIsCanonical(Encode(chunk), Trusted);
    }
  }

  // The header `encode` writes is the oldest one that can hold the pool.
  lemma {:induction false} ModuleAbiIsLeast(chunk: Chunk, abi: U32)
    requires ChunkFits(chunk) && KnownAbi(abi)
    ensures DecodeWith(EncodeAs(chunk, abi), Trusted) == Ok(chunk) <==> ModuleAbi(chunk.constants) <= abi
    ensures DecodeWith(EncodeAs(chunk, abi), Trusted).Ok? <==> ModuleAbi(chunk.constants) <= abi
  {
    DecodeEncoded(chunk, abi, Trusted);
  }

  // The verifier's answer for a whole pool: the kind reported for the first
  // constant it refuses.
  function ValidatePool(constants: seq<Value>, trust: TrustLevel): (refused: Option<ConstantKind>) {
    if constants == [] then None
    else if ValidateConstant(constants[0], trust).Some? then ValidateConstant(constants[0], trust)
    else ValidatePool(constants[1..], trust)
  }

  // A constant the verifier lets an untrusted module have.
  predicate Plain(v: Value) {
    WithinNestingLimit(v) && FirstAuthority(v).None?
  }

  // Some constant is refused exactly when the trust level is not full and the
  // pool has one that is nested too deep or carries authority; the answer is
  // about the first such constant, and nesting counts as a capability.
  lemma {:induction false} ValidatePoolFindsFirst(constants: seq<Value>, trust: TrustLevel)
    ensures Verdict(constants, trust, ValidatePool(constants, trust))
  {
    if constants != [] {
      ValidatePoolFindsFirst(constants[1..], trust);
      VerdictOfRest(constants, trust, ValidatePool(constants[1..], trust));
    }
  }

  ghost predicate Verdict(constants: seq<Value>, trust: TrustLevel, refused: Option<ConstantKind>) {
    if refused.None? then
      trust.AllowsAuthorityConstants() || forall i | 0 <= i < |constants| :: Plain(constants[i])
    else
      !trust.AllowsAuthorityConstants() && exists i | 0 <= i < |constants| :: RefusedAt(constants, i, refused.value)
  }

  lemma {:induction false} VerdictOfRest(constants: seq<Value>, trust: TrustLevel, rest: Option<ConstantKind>)
    requires constants != [] && Verdict(constants[1..], trust, rest)
    ensures
      var first := ValidateConstant(constants[0], trust);
      Verdict(constants, trust, if first.Some? then first else rest)
  {
    var first := ValidateConstant(constants[0], trust);
    if first.Some? {
      assert RefusedAt(constants, 0, first.value);
    } else if rest.Some? {
      var i :| 0 <= i < |constants| - 1 && RefusedAt(constants[1..], i, rest.value);
      RefusedLater(constants, i, rest.value);
    } else if !trust.AllowsAuthorityConstants() {
      forall i | 0 <= i < |constants| ensures Plain(constants[i]) {
        assert i == 0 || constants[i] == constants[1..][i - 1];
      }
    }
  }

  ghost predicate RefusedAt(constants: seq<Value>, i: nat, kind: ConstantKind)
    requires i < |constants|
  {
    && (forall j | 0 <= j < i :: Plain(constants[j]))
    && !Plain(constants[i])
    && kind == if WithinNestingLimit(constants[i]) then FirstAuthority(constants[i]).value else Capability
  }

  lemma {:induction false} RefusedLater(constants: seq<Value>, i: nat, kind: ConstantKind)
    requires i + 1 < |constants| && Plain(constants[0]) && RefusedAt(constants[1..], i, kind)
    ensures RefusedAt(constants, i + 1, kind)
  {
    forall j | 0 <= j < i + 1 ensures Plain(constants[j]) {
      assert j == 0 || constants[j] == constants[1..][j - 1];
    }
  }

  // Within the nesting limit that is the first authority-bearing value.
  lemma {:induction false} ValidatePoolIsFirstAuthority(constants: seq<Value>, trust: TrustLevel)
    requires forall i | 0 <= i < |constants| :: WithinNestingLimit(constants[i])
    ensures ValidatePool(constants, trust)
         == if trust.AllowsAuthorityConstants() then None else FirstAuthorityIn(constants)
  {
    if constants != [] {
      ValidatePoolIsFirstAuthority(constants[1..], trust);
    }
  }

  // The decoder and the verifier refuse the same pools, for the same reason.
  lemma {:induction false} TrustGatesAgree(chunk: Chunk, trust: TrustLevel)
    requires ChunkFits(chunk)
    ensures DecodeWith(Encode(chunk), trust)
         == match ValidatePool(chunk.constants, trust) {
              case None => Ok(chunk)
              case Some(kind) => Err(ForbiddenConstant(kind))
            }
  {
    DecodeEncoded(chunk, ModuleAbi(chunk.constants), trust);
    ValidatePoolIsFirstAuthority(chunk.constants, trust);
  }
}
