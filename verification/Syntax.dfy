/** The WebAssembly syntax shared by every translator in the project.

    Instruction lists are trees, as the IR and the structured semantics see them. Straight-line
    instructions are grouped under `Simple`; everything that transfers control has its own
    constructor. */
module Syntax {
  datatype Option<+T> = None | Some(value: T)

  /** One slot of the interpreter's value stack: the 64 bits of the `Value` union. */
  type Word = w: int | 0 <= w < 0x1_0000_0000_0000_0000

  const TWO_32 := 0x1_0000_0000
  const TWO_64 := 0x1_0000_0000_0000_0000

  /** `Any` only ever occurs on the type checker's stack, in unreachable code. */
  datatype Type = I32 | I64 | F32 | F64 | Any

  datatype Sig = Sig(params: seq<Type>, results: seq<Type>)

  datatype BinOp = I32Add | I32Sub | I32LtU | I32DivU | I64Add | I64LtU

  datatype Op =
    | Const(ty: Type, value: Word)
    | Binary(bin: BinOp)
    | Drop
    | Select
    | Nop
    | LocalGet(x: nat)
    | LocalSet(x: nat)
    | LocalTee(x: nat)
    | GlobalGet(g: nat)
    | GlobalSet(g: nat)

  /** `els` is meaningful only when `hasElse`: an absent `else` is an empty branch. */
  datatype Expr =
    | Simple(op: Op)
    | Block(sig: Sig, body: ExprList)
    | Loop(sig: Sig, body: ExprList)
    | If(sig: Sig, thn: ExprList, hasElse: bool, els: ExprList)
    | Br(depth: nat)
    | BrIf(depth: nat)
    | BrTable(targets: seq<nat>, default: nat)
    | Return
    | Call(f: nat)
    | Unreachable

  datatype ExprList = Nil | Cons(head: Expr, tail: ExprList)

  datatype LocalDecl = LocalDecl(count: nat, ty: Type)

  datatype Func = Func(sig: Sig, decls: seq<LocalDecl>, body: ExprList)

  datatype Global = Global(ty: Type, mutable: bool)

  datatype Module = Module(funcs: seq<Func>, globals: seq<Global>)

  function LocalCount(decls: seq<LocalDecl>): nat {
    if decls == [] then 0 else decls[0].count + LocalCount(decls[1..])
  }

  function DeclTypes(decls: seq<LocalDecl>): (r: seq<Type>)
    ensures |r| == LocalCount(decls)
  {
    if decls == [] then [] else seq(decls[0].count, _ => decls[0].ty) + DeclTypes(decls[1..])
  }

  /** Parameters followed by declared locals, the index space of the local instructions. */
  function LocalTypes(f: Func): (r: seq<Type>)
    ensures |r| == |f.sig.params| + LocalCount(f.decls)
  {
    f.sig.params + DeclTypes(f.decls)
  }

  function Zeros(n: nat): (r: seq<Word>)
    ensures |r| == n && forall i :: 0 <= i < n ==> r[i] == 0
  {
    seq(n, _ => 0)
  }

  /** Constants of 4-byte types only carry 32 bits. */
  function ConstWord(ty: Type, value: Word): Word {
    if ty == I32 || ty == F32 then value % TWO_32 else value
  }

  /** The integer operators on untyped words: i32 operators see the low 32 bits. `None` is the
      divide-by-zero trap. */
  function ApplyBin(op: BinOp, a: Word, b: Word): Option<Word> {
    match op
    case I32Add => Some((a % TWO_32 + b % TWO_32) % TWO_32)
    case I32Sub => Some((a % TWO_32 - b % TWO_32) % TWO_32)
    case I32LtU => Some(if a % TWO_32 < b % TWO_32 then 1 else 0)
    case I32DivU => if b % TWO_32 == 0 then None else Some((a % TWO_32) / (b % TWO_32))
    case I64Add => Some((a + b) % TWO_64)
    case I64LtU => Some(if a < b then 1 else 0)
  }

  function BinParam(op: BinOp): Type {
    if op == I64Add || op == I64LtU then I64 else I32
  }

  function BinResult(op: BinOp): Type {
    if op == I64Add then I64 else I32
  }

  // ----- WebAssembly 1.0 ------------------------------------------------------------------------

  predicate NarrowList(es: ExprList) {
    match es
    case Nil => true
    case Cons(e, rest) => NarrowExpr(e) && NarrowList(rest)
  }

  predicate NarrowSig(sig: Sig) {
    sig.params == [] && |sig.results| <= 1
  }

  /** Block types of WebAssembly 1.0: no parameters, at most one result. */
  predicate NarrowExpr(e: Expr) {
    match e
    case Block(sig, body) => NarrowSig(sig) && NarrowList(body)
    case Loop(sig, body) => NarrowSig(sig) && NarrowList(body)
    case If(sig, thn, hasElse, els) => NarrowSig(sig) && NarrowList(thn) && (hasElse ==> NarrowList(els))
    case _ => true
  }

  predicate Narrow(m: Module) {
    forall f :: 0 <= f < |m.funcs| ==>
      |m.funcs[f].sig.results| <= 1 && LocalCount(m.funcs[f].decls) < TWO_32 && NarrowList(m.funcs[f].body)
  }

  /** Types that values really have. */
  predicate Concrete(ts: seq<Type>) {
    forall i :: 0 <= i < |ts| ==> ts[i] != Any
  }

  predicate ConcreteList(es: ExprList) {
    match es
    case Nil => true
    case Cons(e, rest) => ConcreteExpr(e) && ConcreteList(rest)
  }

  predicate ConcreteExpr(e: Expr) {
    match e
    case Simple(Const(ty, _)) => ty != Any
    case Block(sig, body) => Concrete(sig.results) && ConcreteList(body)
    case Loop(sig, body) => Concrete(sig.results) && ConcreteList(body)
    case If(sig, thn, hasElse, els) => Concrete(sig.results) && ConcreteList(thn) && (hasElse ==> ConcreteList(els))
    case _ => true
  }

  predicate ConcreteFunc(f: Func) {
    Concrete(f.sig.params) && Concrete(f.sig.results) && Concrete(LocalTypes(f)) && ConcreteList(f.body)
  }

  /** No `Any` where the binary format has a value type. */
  predicate ConcreteModule(m: Module) {
    && (forall f :: 0 <= f < |m.funcs| ==> ConcreteFunc(m.funcs[f]))
    && forall g :: 0 <= g < |m.globals| ==> m.globals[g].ty != Any
  }
}
