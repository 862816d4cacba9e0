/** Function bodies as bytes: what the writer emits for a tree, what the reader's opcode loop accepts,
    and the tree that its callbacks build from the flat stream. */
module BinaryFormat {
  import opened Syntax
  import opened Bytecode
  import opened Leb128
  import opened TypeChecker

  /** What a body refers to: the module's function types, how many functions there are, and whether
      block types may be indices. */
  datatype Format = Format(types: seq<Sig>, funcs: nat, multiValue: bool)

  /** One step of the flat form. `Open` starts a block, a loop or an `if`. */
  datatype Token = Leaf(e: Expr) | Open(kind: Kind, sig: Sig) | ElseToken | EndToken

  // ----- Types -----------------------------------------------------------------------------------------------

  const VOID := -0x40

  function TypeCode(ty: Type): int {
    match ty
    case I32 => -1
    case I64 => -2
    case F32 => -3
    case F64 => -4
    case Any => 0
  }

  function TypeOf(code: int): Option<Type> {
    if code == -1 then Some(I32)
    else if code == -2 then Some(I64)
    else if code == -3 then Some(F32)
    else if code == -4 then Some(F64)
    else None
  }

  /** `GetFuncTypeIndex`: the first type that equals the signature. */
  function TypeIndex(types: seq<Sig>, sig: Sig): (i: nat)
    ensures i <= |types|
    ensures i < |types| ==> types[i] == sig
  {
    if types == [] || types[0] == sig then 0 else 1 + TypeIndex(types[1..], sig)
  }

  /** `WriteBlockDecl`: inline if there are no parameters and at most one result, else an index. */
  function BlockCode(types: seq<Sig>, sig: Sig): int {
    if sig.params == [] && |sig.results| <= 1 then (if sig.results == [] then VOID else TypeCode(sig.results[0]))
    else TypeIndex(types, sig)
  }

  predicate BlockSigOk(f: Format, sig: Sig) {
    if sig.params == [] && |sig.results| <= 1 then Concrete(sig.results)
    else f.multiValue && TypeIndex(f.types, sig) < |f.types| < 0x8000_0000
  }

  /** `IsBlockType` and `SetBlockDeclaration`. */
  function BlockSig(f: Format, code: int): Option<Sig> {
    if code == VOID then Some(Sig([], []))
    else if TypeOf(code).Some? then Some(Sig([], [TypeOf(code).value]))
    else if f.multiValue && 0 <= code < |f.types| then Some(f.types[code])
    else None
  }

  function Signed32(w: nat): int {
    if w % TWO_32 < 0x8000_0000 then w % TWO_32 else w % TWO_32 - TWO_32
  }

  function Signed64(w: nat): int {
    if w % TWO_64 < 0x8000_0000_0000_0000 then w % TWO_64 else w % TWO_64 - TWO_64
  }

  // ----- Writing ----------------------------------------------------------------------------------------------

  function EncodeDepths(ds: seq<nat>): seq<Byte> {
    if ds == [] then [] else ULeb(ds[0]) + EncodeDepths(ds[1..])
  }

  function EncodeConst(ty: Type, v: Word): seq<Byte> {
    match ty
    case I32 => [0x41] + SLeb(Signed32(v))
    case I64 => [0x42] + SLeb(Signed64(v))
    case F32 => [0x43] + U32(v)
    case _ => [0x44] + (U32(v) + U32(v / TWO_32))
  }

  function EncodeOp(op: Op): seq<Byte> {
    match op
    case Const(ty, v) => EncodeConst(ty, v)
    case Binary(bin) => [BinOpcode(bin)]
    case Drop => [0x1a]
    case Select => [0x1b]
    case Nop => [0x01]
    case LocalGet(x) => [0x20] + ULeb(x)
    case LocalSet(x) => [0x21] + ULeb(x)
    case LocalTee(x) => [0x22] + ULeb(x)
    case GlobalGet(g) => [0x23] + ULeb(g)
    case GlobalSet(g) => [0x24] + ULeb(g)
  }

  function EncodeLeaf(e: Expr): seq<Byte> {
    match e
    case Simple(op) => EncodeOp(op)
    case Br(d) => [0x0c] + ULeb(d)
    case BrIf(d) => [0x0d] + ULeb(d)
    case BrTable(targets, default) => [0x0e] + (ULeb(|targets|) + (EncodeDepths(targets) + ULeb(default)))
    case Return => [0x0f]
    case Call(f) => [0x10] + ULeb(f)
    case _ => [0x00]
  }

  function OpenOpcode(kind: Kind): Byte {
    if kind == BlockLabel then 0x02 else if kind == LoopLabel then 0x03 else 0x04
  }

  function EncodeToken(f: Format, t: Token): (r: seq<Byte>)
    ensures |r| >= 1
  {
    match t
    case Leaf(e) => EncodeLeaf(e)
    case Open(kind, sig) => [OpenOpcode(kind)] + SLeb(BlockCode(f.types, sig))
    case ElseToken => [0x05]
    case EndToken => [0x0b]
  }

  function EncodeTokens(f: Format, ts: seq<Token>): seq<Byte> {
    if ts == [] then [] else EncodeToken(f, ts[0]) + EncodeTokens(f, ts[1..])
  }

  // ----- Reading ----------------------------------------------------------------------------------------------

  datatype ReadResult<T> = ReadResult(value: T, next: nat)

  function ReadDepths(p: seq<Byte>, at: nat, end: nat, n: nat): (r: Option<ReadResult<seq<nat>>>)
    requires end <= |p|
    ensures r.Some? ==> at <= r.value.next && |r.value.value| == n && (at <= end ==> r.value.next <= end)
    decreases n
  {
    if n == 0 then Some(ReadResult([], at))
    else
      match ReadU32Leb(p, at, end)
      case None => None
      case Some(d) =>
        match ReadDepths(p, at + d.size, end, n - 1)
        case None => None
        case Some(r) => Some(ReadResult([d.value] + r.value, r.next))
  }

  function ReadTable(p: seq<Byte>, at: nat, end: nat): (r: Option<ReadResult<Token>>)
    requires end <= |p|
    ensures r.Some? ==> at < r.value.next <= end
  {
    match ReadU32Leb(p, at, end)
    case None => None
    case Some(n) =>
      match ReadDepths(p, at + n.size, end, n.value)
      case None => None
      case Some(ds) =>
        match ReadU32Leb(p, ds.next, end)
        case None => None
        case Some(d) => Some(ReadResult(Leaf(BrTable(ds.value, d.value)), ds.next + d.size))
  }

  function Indexed(op: Byte, i: nat): Expr {
    if op == 0x0c then Br(i)
    else if op == 0x0d then BrIf(i)
    else if op == 0x10 then Call(i)
    else if op == 0x20 then Simple(LocalGet(i))
    else if op == 0x21 then Simple(LocalSet(i))
    else if op == 0x22 then Simple(LocalTee(i))
    else if op == 0x23 then Simple(GlobalGet(i))
    else Simple(GlobalSet(i))
  }

  predicate IsIndexed(op: Byte) {
    op == 0x0c || op == 0x0d || op == 0x10 || 0x20 <= op <= 0x24
  }

  /** Opcodes without operands. */
  function Bare(op: Byte): Option<Token> {
    if op == 0x00 then Some(Leaf(Unreachable))
    else if op == 0x01 then Some(Leaf(Simple(Nop)))
    else if op == 0x05 then Some(ElseToken)
    else if op == 0x0b then Some(EndToken)
    else if op == 0x0f then Some(Leaf(Return))
    else if op == 0x1a then Some(Leaf(Simple(Drop)))
    else if op == 0x1b then Some(Leaf(Simple(Select)))
    else if op == 0x49 then Some(Leaf(Simple(Binary(I32LtU))))
    else if op == 0x54 then Some(Leaf(Simple(Binary(I64LtU))))
    else if op == 0x6a then Some(Leaf(Simple(Binary(I32Add))))
    else if op == 0x6b then Some(Leaf(Simple(Binary(I32Sub))))
    else if op == 0x6e then Some(Leaf(Simple(Binary(I32DivU))))
    else if op == 0x7c then Some(Leaf(Simple(Binary(I64Add))))
    else None
  }

  function ReadConst(p: seq<Byte>, at: nat, end: nat, op: Byte): (r: Option<ReadResult<Token>>)
    requires end <= |p|
    ensures r.Some? ==> at < r.value.next <= end
  {
    if op == 0x41 then
      match ReadS32Leb(p, at, end)
      case None => None
      case Some(v) => Some(ReadResult(Leaf(Simple(Const(I32, v.value))), at + v.size))
    else if op == 0x42 then
      match ReadS64Leb(p, at, end)
      case None => None
      case Some(v) => Some(ReadResult(Leaf(Simple(Const(I64, v.value))), at + v.size))
    else if op == 0x43 then
      if at + 4 > end then None else Some(ReadResult(Leaf(Simple(Const(F32, ReadU32(p, at)))), at + 4))
    else if at + 8 > end then None
    else Some(ReadResult(Leaf(Simple(Const(F64, ReadU32(p, at) + TWO_32 * ReadU32(p, at + 4)))), at + 8))
  }

  function ReadOpen(f: Format, p: seq<Byte>, at: nat, end: nat, kind: Kind): (r: Option<ReadResult<Token>>)
    requires end <= |p|
    ensures r.Some? ==> at < r.value.next <= end
  {
    match ReadS32Leb(p, at, end)
    case None => None
    case Some(v) =>
      match BlockSig(f, Signed32(v.value))
      case None => None
      case Some(sig) => Some(ReadResult(Open(kind, sig), at + v.size))
  }

  /** One turn of the loop in `ReadFunctionBody`: `None` is any of its errors. */
  function ReadToken(f: Format, p: seq<Byte>, at: nat, end: nat): (r: Option<ReadResult<Token>>)
    requires end <= |p|
    ensures r.Some? ==> at < r.value.next <= end
  {
    if at >= end then None
    else
      var op := p[at];
      if Bare(op).Some? then Some(ReadResult(Bare(op).value, at + 1))
      else if op == 0x02 then ReadOpen(f, p, at + 1, end, BlockLabel)
      else if op == 0x03 then ReadOpen(f, p, at + 1, end, LoopLabel)
      else if op == 0x04 then ReadOpen(f, p, at + 1, end, IfLabel)
      else if op == 0x0e then ReadTable(p, at + 1, end)
      else if IsIndexed(op) then
        match ReadU32Leb(p, at + 1, end)
        case None => None
        case Some(i) =>
          if op == 0x10 && i.value >= f.funcs then None
          else Some(ReadResult(Leaf(Indexed(op, i.value)), at + 1 + i.size))
      else if 0x41 <= op <= 0x44 then ReadConst(p, at + 1, end, op)
      else None
  }

  // ----- One token and back -------------------------------------------------------------------------------------

  /** What the binary format can express: 32-bit indices, functions that exist, encodable block types. */
  predicate TokenOk(f: Format, t: Token) {
    match t
    case Leaf(e) => LeafOk(f, e)
    case Open(kind, sig) => (kind == BlockLabel || kind == LoopLabel || kind == IfLabel) && BlockSigOk(f, sig)
    case _ => true
  }

  predicate OpOk(op: Op) {
    match op
    case Const(ty, _) => ty != Any
    case LocalGet(x) => x < TWO_32
    case LocalSet(x) => x < TWO_32
    case LocalTee(x) => x < TWO_32
    case GlobalGet(g) => g < TWO_32
    case GlobalSet(g) => g < TWO_32
    case _ => true
  }

  predicate LeafOk(f: Format, e: Expr) {
    match e
    case Simple(op) => OpOk(op)
    case Br(d) => d < TWO_32
    case BrIf(d) => d < TWO_32
    case BrTable(targets, default) =>
      |targets| < TWO_32 && default < TWO_32 && forall i :: 0 <= i < |targets| ==> targets[i] < TWO_32
    case Return => true
    case Call(g) => g < f.funcs && g < TWO_32
    case Unreachable => true
    case _ => false
  }

  /** Constants of 4-byte types keep 32 bits; everything else comes back as it was. */
  function CanonLeaf(e: Expr): Expr {
    match e
    case Simple(Const(ty, v)) => Simple(Const(ty, ConstWord(ty, v)))
    case _ => e
  }

  function CanonToken(t: Token): Token {
    match t
    case Leaf(e) => Leaf(CanonLeaf(e))
    case _ => t
  }

  lemma SignedBack(w: nat)
    ensures Signed32(w) % TWO_32 == w % TWO_32 && -0x8000_0000 <= Signed32(w) < 0x8000_0000
    ensures Signed64(w) % TWO_64 == w % TWO_64 && -0x8000_0000_0000_0000 <= Signed64(w) < 0x8000_0000_0000_0000
    ensures Signed32(w % TWO_32) == Signed32(w)
  {
  }

  lemma BlockCodeRange(f: Format, sig: Sig)
    requires BlockSigOk(f, sig)
    ensures -0x8000_0000 <= BlockCode(f.types, sig) < 0x8000_0000
    ensures BlockSig(f, BlockCode(f.types, sig)) == Some(sig)
  {
    hide TypeIndex;
    if sig.params == [] && |sig.results| == 1 {
      assert sig == Sig([], [sig.results[0]]);
    } else if sig.params == [] && sig.results == [] {
      assert sig == Sig([], []);
    }
  }

  lemma SignedCode(v: int)
    requires -0x8000_0000 <= v < 0x8000_0000
    ensures Signed32(v % TWO_32) == v
  {
  }

  lemma ReadOpenBack(f: Format, p: seq<Byte>, at: nat, end: nat, kind: Kind, sig: Sig)
    requires BlockSigOk(f, sig) && end <= |p|
    requires CodeAt(p, at, SLeb(BlockCode(f.types, sig))) && at + |SLeb(BlockCode(f.types, sig))| <= end
    ensures ReadOpen(f, p, at, end, kind) == Some(ReadResult(Open(kind, sig), at + |SLeb(BlockCode(f.types, sig))|))
  {
    hide CodeAt, SLeb, BlockCode, BlockSig, ReadS32Leb, Signed32;
    BlockCodeRange(f, sig);
    var v := BlockCode(f.types, sig);
    ReadSLeb32(p, at, end, v);
    SignedCode(v);
  }

  lemma {:induction false} ReadDepthsBack(p: seq<Byte>, at: nat, end: nat, ds: seq<nat>)
    requires forall i :: 0 <= i < |ds| ==> ds[i] < TWO_32
    requires end <= |p| && CodeAt(p, at, EncodeDepths(ds)) && at + |EncodeDepths(ds)| <= end
    ensures ReadDepths(p, at, end, |ds|) == Some(ReadResult(ds, at + |EncodeDepths(ds)|))
    decreases |ds|
  {
    hide CodeAt, ULeb, ReadU32Leb;
    if ds != [] {
      CodeAtSplit(p, at, ULeb(ds[0]), EncodeDepths(ds[1..]));
      ReadULeb(p, at, end, ds[0]);
      ReadDepthsBack(p, at + |ULeb(ds[0])|, end, ds[1..]);
      assert [ds[0]] + ds[1..] == ds;
    }
  }

  lemma ReadTableBack(p: seq<Byte>, at: nat, end: nat, targets: seq<nat>, default: nat)
    requires |targets| < TWO_32 && default < TWO_32 && forall i :: 0 <= i < |targets| ==> targets[i] < TWO_32
    requires var c := ULeb(|targets|) + (EncodeDepths(targets) + ULeb(default));
             end <= |p| && CodeAt(p, at, c) && at + |c| <= end
    ensures var c := ULeb(|targets|) + (EncodeDepths(targets) + ULeb(default));
            ReadTable(p, at, end) == Some(ReadResult(Leaf(BrTable(targets, default)), at + |c|))
  {
    hide CodeAt, ULeb, ReadU32Leb, ReadDepths, EncodeDepths;
    CodeAtSplit(p, at, ULeb(|targets|), EncodeDepths(targets) + ULeb(default));
    var at1 := at + |ULeb(|targets|)|;
    CodeAtSplit(p, at1, EncodeDepths(targets), ULeb(default));
    ReadULeb(p, at, end, |targets|);
    ReadDepthsBack(p, at1, end, targets);
    ReadULeb(p, at1 + |EncodeDepths(targets)|, end, default);
  }

  lemma ReadConstBack(f: Format, p: seq<Byte>, at: nat, end: nat, ty: Type, v: Word)
    requires ty != Any && end <= |p| && CodeAt(p, at, EncodeConst(ty, v)) && at + |EncodeConst(ty, v)| <= end
    ensures ReadToken(f, p, at, end)
         == Some(ReadResult(Leaf(Simple(Const(ty, ConstWord(ty, v)))), at + |EncodeConst(ty, v)|))
  {
    hide CodeAt, SLeb, U32, ReadU32, ReadS32Leb, ReadS64Leb, Signed32, Signed64;
    SignedBack(v);
    match ty
    case I32 =>
      CodeAtCons(p, at, 0x41, SLeb(Signed32(v)));
      ReadSLeb32(p, at + 1, end, Signed32(v));
    case I64 =>
      CodeAtCons(p, at, 0x42, SLeb(Signed64(v)));
      ReadSLeb64(p, at + 1, end, Signed64(v));
    case F32 =>
      CodeAtCons(p, at, 0x43, U32(v));
      ReadBack(p, at + 1, v);
    case _ =>
      ReadF64Back(f, p, at, end, v);
  }

  lemma ReadF64Back(f: Format, p: seq<Byte>, at: nat, end: nat, v: Word)
    requires var c := [0x44] + (U32(v) + U32(v / TWO_32)); end <= |p| && CodeAt(p, at, c) && at + |c| <= end
    ensures ReadToken(f, p, at, end) == Some(ReadResult(Leaf(Simple(Const(F64, v))), at + 9))
  {
    hide U32, ReadU32;
    var hi := v / TWO_32;
    CodeAtCons(p, at, 0x44, U32(v) + U32(hi));
    CodeAtSplit(p, at + 1, U32(v), U32(hi));
    ReadBack(p, at + 1, v);
    ReadBack(p, at + 5, hi);
  }

  lemma ReadIndexedBack(f: Format, p: seq<Byte>, at: nat, end: nat, op: Byte, i: nat)
    requires IsIndexed(op) && i < TWO_32 && (op == 0x10 ==> i < f.funcs)
    requires end <= |p| && CodeAt(p, at, [op] + ULeb(i)) && at + |[op] + ULeb(i)| <= end
    ensures ReadToken(f, p, at, end) == Some(ReadResult(Leaf(Indexed(op, i)), at + |[op] + ULeb(i)|))
  {
    hide CodeAt, ULeb, ReadU32Leb;
    CodeAtCons(p, at, op, ULeb(i));
    ReadULeb(p, at + 1, end, i);
  }

  lemma ReadBareBack(f: Format, p: seq<Byte>, at: nat, end: nat, op: Byte)
    requires Bare(op).Some? && end <= |p| && CodeAt(p, at, [op]) && at + 1 <= end
    ensures ReadToken(f, p, at, end) == Some(ReadResult(Bare(op).value, at + 1))
  {
    hide Bare;
    assert p[at] == p[at..at + 1][0];
  }
}
