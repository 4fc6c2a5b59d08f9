/**
 The instruction set and the shape of a module
 (byteflow/src/bytecode/opcode.rs, instruction.rs and chunk.rs).

 `Opcode` is `#[repr(u8)]`, so an opcode is its discriminant: a byte inside
 one of the defined ranges. Only the opcodes the verifier or the machine
 treats specially are named.
 */
module Chunks {
  import opened Common
  import opened Values

  predicate IsOpcode(byte: U8) {
    || byte <= 0x03
    || 0x10 <= byte <= 0x15
    || 0x18 <= byte <= 0x1A
    || 0x20 <= byte <= 0x21
    || 0x30 <= byte <= 0x32
    || 0x40 <= byte <= 0x44
    || 0x50 <= byte <= 0x97
  }

  type Opcode = byte: U8 | IsOpcode(byte)

  // `Opcode::from_u8`: anything outside the defined set is refused.
  function FromU8(byte: U8): (op: Option<Opcode>) {
    if IsOpcode(byte) then Some(byte) else None
  }

  const HALT: Opcode := 0x00
  const LOAD_CONST: Opcode := 0x01
  const JUMP: Opcode := 0x20
  const BRANCH: Opcode := 0x21
  const CALL: Opcode := 0x30
  const RETURN: Opcode := 0x31
  const CALL_NATIVE: Opcode := 0x32
  const SPAWN: Opcode := 0x40
  const EXIT: Opcode := 0x43
  const RECEIVE_MATCH_IMM: Opcode := 0x54
  const ASK_TIMEOUT: Opcode := 0x5A
  const RECEIVE_MATCH_CORR_IMM: Opcode := 0x5E
  const TRAP: Opcode := 0x60
  const RECEIVE_MATCH_KIND: Opcode := 0x64
  const SET_RESTART_POLICY: Opcode := 0x65
  const START_CHILD: Opcode := 0x6F
  const CALL_NATIVE_FROM: Opcode := 0x74
  const LIST_PACK: Opcode := 0x77
  const RECEIVE_MATCH_CMP: Opcode := 0x83
  const MAP_PACK: Opcode := 0x84
  const RECORD_PACK: Opcode := 0x8A
  const BRANCH_TRUE: Opcode := 0x94
  const TAIL_CALL: Opcode := 0x97

  datatype Instruction = Instruction(op: Opcode, a: U8, b: U8, c: U8, imm: I32)

  datatype FunctionDef = FunctionDef(name: string, entry: U32, arity: U8, numRegisters: U8)

  datatype Chunk = Chunk(name: string, constants: seq<Value>, code: seq<Instruction>, functions: seq<FunctionDef>)
}
