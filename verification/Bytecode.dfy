/** The interpreter's instruction stream: one opcode byte followed by little-endian operands, as
    `EmitOpcode`, `EmitI32` and `EmitI64` write it and `ReadOpcode`, `ReadU32` and `ReadU64` read it
    back. */
module Bytecode {
  import opened Syntax

  type Byte = b: int | 0 <= b < 256

  /** An operand written by `EmitI32`: the argument is truncated to 32 bits. */
  function U32(v: int): (bytes: seq<Byte>)
    ensures |bytes| == 4
  {
    var u := v % TWO_32;
    [u % 0x100, u / 0x100 % 0x100, u / 0x1_0000 % 0x100, u / 0x100_0000]
  }

  function ReadU32(code: seq<Byte>, at: nat): (v: nat)
    requires at + 4 <= |code|
    ensures v < TWO_32
  {
    (code[at] as int) + 0x100 * (code[at + 1] as int) + 0x1_0000 * (code[at + 2] as int)
    + 0x100_0000 * (code[at + 3] as int)
  }

  lemma BytesOfWord(u: nat)
    requires u < TWO_32
    ensures u % 0x100 + 0x100 * (u / 0x100 % 0x100) + 0x1_0000 * (u / 0x1_0000 % 0x100)
            + 0x100_0000 * (u / 0x100_0000) == u
  {
    var q1, q2, q3 := u / 0x100, u / 0x1_0000, u / 0x100_0000;
    assert q2 == q1 / 0x100 && q3 == q2 / 0x100;
  }

  lemma ReadBack(code: seq<Byte>, at: nat, v: int)
    requires at + 4 <= |code| && code[at..at + 4] == U32(v)
    ensures ReadU32(code, at) == v % TWO_32
  {
    var b := U32(v);
    var slice := code[at..at + 4];
    assert code[at] == slice[0] == b[0] && code[at + 1] == slice[1] == b[1];
    assert code[at + 2] == slice[2] == b[2] && code[at + 3] == slice[3] == b[3];
    BytesOfWord(v % TWO_32);
  }

  /** Decoded instructions. Branch and call operands are absolute stream offsets. */
  datatype Instr =
    | IUnreachable
    | INop
    | IBr(target: int)
    | IBrIf(target: int)
    | IBrTable(count: int, table: int)
    | IReturn
    | ICall(target: int)
    | IDrop
    | ISelect
    | IGetLocal(depth: int)
    | ISetLocal(depth: int)
    | ITeeLocal(depth: int)
    | IGetGlobal(index: int)
    | ISetGlobal(index: int)
    | IConst32(float: bool, value: int)
    | IConst64(float: bool, lo: int, hi: int)
    | IBin(bin: BinOp)
    | IAlloca(count: int)
    | IBrUnless(target: int)
    | IData(size: int)
    | IDropKeep(drop: int, keep: int)

  function BinOpcode(op: BinOp): Byte {
    match op
    case I32Add => 0x6a
    case I32Sub => 0x6b
    case I32LtU => 0x49
    case I32DivU => 0x6e
    case I64Add => 0x7c
    case I64LtU => 0x54
  }

  function Opcode(i: Instr): Byte {
    match i
    case IUnreachable => 0x00
    case INop => 0x01
    case IBr(_) => 0x0c
    case IBrIf(_) => 0x0d
    case IBrTable(_, _) => 0x0e
    case IReturn => 0x0f
    case ICall(_) => 0x10
    case IDrop => 0x1a
    case ISelect => 0x1b
    case IGetLocal(_) => 0x20
    case ISetLocal(_) => 0x21
    case ITeeLocal(_) => 0x22
    case IGetGlobal(_) => 0x23
    case ISetGlobal(_) => 0x24
    case IConst32(float, _) => if float then 0x43 else 0x41
    case IConst64(float, _, _) => if float then 0x44 else 0x42
    case IBin(op) => BinOpcode(op)
    case IAlloca(_) => 0xe0
    case IBrUnless(_) => 0xe1
    case IData(_) => 0xe3
    case IDropKeep(_, _) => 0xe4
  }

  function Operands(i: Instr): seq<int> {
    match i
    case IBr(t) => [t]
    case IBrIf(t) => [t]
    case IBrTable(n, t) => [n, t]
    case ICall(t) => [t]
    case IGetLocal(d) => [d]
    case ISetLocal(d) => [d]
    case ITeeLocal(d) => [d]
    case IGetGlobal(g) => [g]
    case ISetGlobal(g) => [g]
    case IConst32(_, v) => [v]
    case IConst64(_, lo, hi) => [lo, hi]
    case IAlloca(n) => [n]
    case IBrUnless(t) => [t]
    case IData(n) => [n]
    case IDropKeep(d, k) => [d, k]
    case _ => []
  }

  function EncodeOperands(ops: seq<int>): (bytes: seq<Byte>)
    requires |ops| <= 2
    ensures |bytes| == 4 * |ops|
  {
    if |ops| == 0 then [] else if |ops| == 1 then U32(ops[0]) else U32(ops[0]) + U32(ops[1])
  }

  function Encode(i: Instr): (bytes: seq<Byte>)
    ensures |bytes| == InstrSize(i)
  {
    [Opcode(i)] + EncodeOperands(Operands(i))
  }

  function InstrSize(i: Instr): nat {
    1 + 4 * |Operands(i)|
  }

  /** The instruction with the given opcode and operand words. */
  function Decode(op: Byte, a: nat, b: nat): Option<Instr> {
    if op == 0x00 then Some(IUnreachable)
    else if op == 0x01 then Some(INop)
    else if op == 0x0c then Some(IBr(a))
    else if op == 0x0d then Some(IBrIf(a))
    else if op == 0x0e then Some(IBrTable(a, b))
    else if op == 0x0f then Some(IReturn)
    else if op == 0x10 then Some(ICall(a))
    else if op == 0x1a then Some(IDrop)
    else if op == 0x1b then Some(ISelect)
    else if op == 0x20 then Some(IGetLocal(a))
    else if op == 0x21 then Some(ISetLocal(a))
    else if op == 0x22 then Some(ITeeLocal(a))
    else if op == 0x23 then Some(IGetGlobal(a))
    else if op == 0x24 then Some(ISetGlobal(a))
    else if op == 0x41 || op == 0x43 then Some(IConst32(op == 0x43, a))
    else if op == 0x42 || op == 0x44 then Some(IConst64(op == 0x44, a, b))
    else if op == 0x49 then Some(IBin(I32LtU))
    else if op == 0x6a then Some(IBin(I32Add))
    else if op == 0x6b then Some(IBin(I32Sub))
    else if op == 0x6e then Some(IBin(I32DivU))
    else if op == 0x7c then Some(IBin(I64Add))
    else if op == 0x54 then Some(IBin(I64LtU))
    else if op == 0xe0 then Some(IAlloca(a))
    else if op == 0xe1 then Some(IBrUnless(a))
    else if op == 0xe3 then Some(IData(a))
    else if op == 0xe4 then Some(IDropKeep(a, b))
    else None
  }

  /** The instruction that starts at `pc`; `None` when it is not wholly inside the stream and on a
      byte that is no opcode. */
  function Fetch(code: seq<Byte>, pc: nat): Option<Instr> {
    if pc >= |code| then None
    else
      var a := if pc + 5 <= |code| then ReadU32(code, pc + 1) else 0;
      var b := if pc + 9 <= |code| then ReadU32(code, pc + 5) else 0;
      var i := Decode(code[pc], a, b);
      if i.Some? && pc + InstrSize(i.value) <= |code| then i else None
  }

  predicate InRange(i: Instr) {
    forall k :: 0 <= k < |Operands(i)| ==> 0 <= Operands(i)[k] < TWO_32
  }

  /** `code` holds the bytes `bytes` at `pos`. */
  predicate CodeAt(code: seq<Byte>, pos: nat, bytes: seq<Byte>) {
    pos + |bytes| <= |code| && code[pos..pos + |bytes|] == bytes
  }

  lemma CodeAtSplit(code: seq<Byte>, pos: nat, a: seq<Byte>, b: seq<Byte>)
    requires CodeAt(code, pos, a + b)
    ensures CodeAt(code, pos, a) && CodeAt(code, pos + |a|, b)
  {
    var all := code[pos..pos + |a + b|];
    assert code[pos..pos + |a|] == all[..|a|] == a;
    assert code[pos + |a|..pos + |a| + |b|] == all[|a|..] == b;
  }

  lemma DecodeOpcode(i: Instr, a: nat, b: nat)
    requires |Operands(i)| >= 1 ==> a == Operands(i)[0]
    requires |Operands(i)| == 2 ==> b == Operands(i)[1]
    ensures Decode(Opcode(i), a, b) == Some(i)
  {
  }

  /** Reading back an emitted instruction yields that instruction. */
  lemma FetchEncode(code: seq<Byte>, pc: nat, i: Instr)
    requires CodeAt(code, pc, Encode(i)) && InRange(i)
    ensures Fetch(code, pc) == Some(i)
  {
    hide U32, ReadU32;
    var ops := Operands(i);
    CodeAtSplit(code, pc, [Opcode(i)], EncodeOperands(ops));
    assert code[pc] == code[pc..pc + 1][0] == Opcode(i);
    if |ops| == 2 {
      CodeAtSplit(code, pc + 1, U32(ops[0]), U32(ops[1]));
    }
    if |ops| >= 1 {
      ReadBack(code, pc + 1, ops[0]);
    }
    if |ops| == 2 {
      ReadBack(code, pc + 5, ops[1]);
    }
    var a := if pc + 5 <= |code| then ReadU32(code, pc + 1) else 0;
    var b := if pc + 9 <= |code| then ReadU32(code, pc + 5) else 0;
    DecodeOpcode(i, a, b);
  }
}
