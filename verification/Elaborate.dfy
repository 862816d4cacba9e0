/** The static half of the interpreter's compiler: validation together with the numbers that
    `BinaryReaderInterp` reads off the type checker while it emits - drop and keep counts of
    branches, and locals as depths below the stack top. */
module Elaborate {
  import opened Syntax
  import opened TypeChecker
  import opened Bytecode

  /** A branch: what `GetBrDropKeepCount` returned, and the label's depth. */
  datatype Jump = Jump(drop: int, keep: nat, depth: nat)

  /** Code whose branch targets are still symbolic. */
  datatype Code =
    | Plain(instrs: seq<Instr>)
    | BlockCode(body: CodeList)
    | LoopCode(body: CodeList)
    | IfCode(thn: CodeList)
    | IfElseCode(thn: CodeList, els: CodeList)
    | BrCode(jump: Jump)
    | BrIfCode(jump: Jump)
    | TableCode(jumps: seq<Jump>)
    | CallCode(f: nat)

  datatype CodeList = CNil | CCons(head: Code, tail: CodeList)

  datatype Elab<T> = Elab(code: T, tc: Checker)

  function BrKeep(tc: Checker, depth: nat): nat
    requires depth < |tc.labels|
  {
    |tc.LabelAt(depth).BrTypes()|
  }

  function BrDrop(tc: Checker, depth: nat): int
    requires depth < |tc.labels|
  {
    if tc.Top().unreachable then 0 else |tc.types| - tc.LabelAt(depth).limit - BrKeep(tc, depth)
  }

  /** `GetReturnDropKeepCount`: the locals go too. */
  function ReturnDrop(ctx: Ctx, tc: Checker): int
    requires tc.labels != []
  {
    BrDrop(tc, |tc.labels| - 1) + |ctx.locals|
  }

  /** The three encodings of `EmitDropKeep`; its arguments are 32-bit. */
  function DropKeepInstrs(drop: int, keep: nat): (r: seq<Instr>)
    ensures |r| <= 1
  {
    var d := drop % TWO_32;
    if d == 0 then [] else if d == 1 && keep == 0 then [IDrop] else [IDropKeep(d, keep)]
  }

  function ReturnInstrs(ctx: Ctx, tc: Checker): seq<Instr>
    requires tc.labels != []
  {
    DropKeepInstrs(ReturnDrop(ctx, tc), BrKeep(tc, |tc.labels| - 1)) + [IReturn]
  }

  /** `TranslateLocalIndex`. */
  function LocalDepth(ctx: Ctx, tc: Checker, x: nat): int {
    |tc.types| + |ctx.locals| - x
  }

  function ConstInstr(ty: Type, v: Word): Instr {
    match ty
    case I32 => IConst32(false, v % TWO_32)
    case F32 => IConst32(true, v % TWO_32)
    case F64 => IConst64(true, v % TWO_32, v / TWO_32)
    case _ => IConst64(false, v % TWO_32, v / TWO_32)
  }

  /** Straight-line instructions between the checker states `tc` and `after`: `get_local` is
      translated before its push is counted, `set_local` after its pop. */
  function OpInstrs(ctx: Ctx, tc: Checker, after: Checker, op: Op): seq<Instr> {
    match op
    case Const(ty, v) => [ConstInstr(ty, v)]
    case Binary(bin) => [IBin(bin)]
    case Drop => [IDrop]
    case Select => [ISelect]
    case Nop => []
    case LocalGet(x) => [IGetLocal(LocalDepth(ctx, tc, x))]
    case LocalSet(x) => [ISetLocal(LocalDepth(ctx, after, x))]
    case LocalTee(x) => [ITeeLocal(LocalDepth(ctx, after, x))]
    case GlobalGet(g) => [IGetGlobal(g)]
    case GlobalSet(g) => [ISetGlobal(g)]
  }

  function JumpTo(tc: Checker, depth: nat): Jump
    requires depth < |tc.labels|
  {
    Jump(BrDrop(tc, depth), BrKeep(tc, depth), depth)
  }

  function JumpsTo(tc: Checker, depths: seq<nat>): (r: seq<Jump>)
    requires CheckTargets(tc, depths)
    ensures |r| == |depths|
    ensures forall i :: 0 <= i < |r| ==> depths[i] < |tc.labels| && r[i] == JumpTo(tc, depths[i])
  {
    assert forall i :: 0 <= i < |depths| ==> TargetOk(tc, depths, i) && depths[i] < |tc.labels|;
    seq(|depths|, i requires 0 <= i < |depths| => JumpTo(tc, depths[i]))
  }

  function ElabSimple(ctx: Ctx, tc: Checker, op: Op): Option<Elab<Code>> {
    match OnOp(ctx, tc, op)
    case None => None
    case Some(after) => Some(Elab(Plain(OpInstrs(ctx, tc, after, op)), after))
  }

  /** The counts of `br` are taken before validation, those of `br_if` after it. */
  function ElabBr(tc: Checker, depth: nat): Option<Elab<Code>> {
    match OnBr(tc, depth)
    case None => None
    case Some(after) => Some(Elab(BrCode(JumpTo(tc, depth)), after))
  }

  function ElabBrIf(tc: Checker, depth: nat): Option<Elab<Code>> {
    match OnBrIf(tc, depth)
    case None => None
    case Some(after) =>
      if depth < |after.labels| then Some(Elab(BrIfCode(JumpTo(after, depth)), after)) else None
  }

  function ElabBrTable(tc: Checker, targets: seq<nat>, default: nat): Option<Elab<Code>> {
    match PopSignature(tc, [I32])
    case None => None
    case Some(tc1) =>
      if CheckTargets(tc1, targets + [default]) then
        Some(Elab(TableCode(JumpsTo(tc1, targets + [default])), SetUnreachable(tc1)))
      else None
  }

  function ElabReturn(ctx: Ctx, tc: Checker): Option<Elab<Code>> {
    if tc.labels == [] then None
    else
      match OnReturn(tc)
      case None => None
      case Some(after) => Some(Elab(Plain(ReturnInstrs(ctx, tc)), after))
  }

  function ElabCall(ctx: Ctx, tc: Checker, f: nat): Option<Elab<Code>> {
    match OnCall(ctx, tc, f)
    case None => None
    case Some(after) => Some(Elab(CallCode(f), after))
  }

  /** From just inside a label up to and including its `end`. */
  function ElabBody(ctx: Ctx, entered: Option<Checker>, body: ExprList): Option<Elab<CodeList>>
    decreases body, 1
  {
    match entered
    case None => None
    case Some(tc1) =>
      match ElabList(ctx, tc1, body)
      case None => None
      case Some(b) =>
        match OnEnd(b.tc)
        case None => None
        case Some(after) => Some(Elab(b.code, after))
  }

  /** The true branch of an `if` up to and including `else`. */
  function ElabThen(ctx: Ctx, entered: Option<Checker>, thn: ExprList): Option<Elab<CodeList>>
    decreases thn, 1
  {
    match entered
    case None => None
    case Some(tc1) =>
      match ElabList(ctx, tc1, thn)
      case None => None
      case Some(b) =>
        match OnElse(b.tc)
        case None => None
        case Some(after) => Some(Elab(b.code, after))
  }

  function ElabList(ctx: Ctx, tc: Checker, es: ExprList): Option<Elab<CodeList>>
    decreases es, 0
  {
    match es
    case Nil => Some(Elab(CNil, tc))
    case Cons(e, rest) =>
      match ElabExpr(ctx, tc, e)
      case None => None
      case Some(h) =>
        match ElabList(ctx, h.tc, rest)
        case None => None
        case Some(t) => Some(Elab(CCons(h.code, t.code), t.tc))
  }

  /** One instruction, with the callbacks in the order in which the binary reader makes them. */
  function ElabExpr(ctx: Ctx, tc: Checker, e: Expr): Option<Elab<Code>>
    decreases e, 0
  {
    match e
    case Simple(op) => ElabSimple(ctx, tc, op)
    case Block(sig, body) =>
      var b := ElabBody(ctx, EnterLabel(tc, BlockLabel, sig), body);
      if b.None? then None else Some(Elab(BlockCode(b.value.code), b.value.tc))
    case Loop(sig, body) =>
      var b := ElabBody(ctx, EnterLabel(tc, LoopLabel, sig), body);
      if b.None? then None else Some(Elab(LoopCode(b.value.code), b.value.tc))
    case If(sig, thn, hasElse, els) =>
      var t := if hasElse then ElabThen(ctx, OnIf(tc, sig), thn) else ElabBody(ctx, OnIf(tc, sig), thn);
      if t.None? then None
      else if !hasElse then Some(Elab(IfCode(t.value.code), t.value.tc))
      else
        var f := ElabBody(ctx, Some(t.value.tc), els);
        if f.None? then None else Some(Elab(IfElseCode(t.value.code, f.value.code), f.value.tc))
    case Br(d) => ElabBr(tc, d)
    case BrIf(d) => ElabBrIf(tc, d)
    case BrTable(targets, default) => ElabBrTable(tc, targets, default)
    case Return => ElabReturn(ctx, tc)
    case Call(f) => ElabCall(ctx, tc, f)
    case Unreachable => Some(Elab(Plain([IUnreachable]), SetUnreachable(tc)))
  }

  /** A function: space for the declared locals, the body, and the implicit return. */
  datatype FuncCode = FuncCode(alloca: seq<Instr>, body: CodeList, exit: seq<Instr>)

  /** `InterpAlloca` comes with the last local declaration, so only if there is one. */
  function AllocaInstrs(decls: seq<LocalDecl>): seq<Instr> {
    if decls == [] then [] else [IAlloca(LocalCount(decls))]
  }

  /** The counts of the implicit return are taken before `EndFunction` validates the stack. */
  function ElabFunc(m: Module, f: nat): Option<FuncCode>
    requires f < |m.funcs|
  {
    var fn := m.funcs[f];
    var ctx := CtxOf(m, f);
    match ElabList(ctx, BeginFunction(fn.sig.results), fn.body)
    case None => None
    case Some(b) =>
      if b.tc.labels == [] || EndFunction(b.tc).None? then None
      else Some(FuncCode(AllocaInstrs(fn.decls), b.code, ReturnInstrs(ctx, b.tc)))
  }

  // ----- Validation keeps everything below the innermost label ---------------------------------

  lemma {:induction false} BodyFrame(ctx: Ctx, tc0: Checker, tc1: Checker, kind: Kind, sig: Sig, body: ExprList)
    requires Entered(tc0, tc1, kind, sig) && ElabBody(ctx, Some(tc1), body).Some?
    ensures Frame(tc0, ElabBody(ctx, Some(tc1), body).value.tc)
    decreases body, 1
  {
    ListFrame(ctx, tc1, body);
    var tc2 := ElabList(ctx, tc1, body).value.tc;
    EndLeft(tc2);
    FrameBody(tc0, tc1, tc2, OnEnd(tc2).value, kind, sig);
  }

  lemma {:induction false} ThenEntered(ctx: Ctx, tc0: Checker, tc1: Checker, sig: Sig, thn: ExprList)
    requires Entered(tc0, tc1, IfLabel, sig) && ElabThen(ctx, Some(tc1), thn).Some?
    ensures Entered(tc0, ElabThen(ctx, Some(tc1), thn).value.tc, ElseLabel, sig)
    decreases thn, 1
  {
    ListFrame(ctx, tc1, thn);
    var tc2 := ElabList(ctx, tc1, thn).value.tc;
    ElseEntered(tc0, tc1, tc2, OnElse(tc2).value, sig);
  }

  lemma {:induction false} ListFrame(ctx: Ctx, tc: Checker, es: ExprList)
    requires Wf(tc) && ElabList(ctx, tc, es).Some?
    ensures Frame(tc, ElabList(ctx, tc, es).value.tc)
    decreases es, 0
  {
    match es
    case Nil =>
    case Cons(e, rest) =>
      ExprFrame(ctx, tc, e);
      var tc1 := ElabExpr(ctx, tc, e).value.tc;
      ListFrame(ctx, tc1, rest);
      FrameTrans(tc, tc1, ElabList(ctx, tc1, rest).value.tc);
  }

  lemma {:induction false} ExprFrame(ctx: Ctx, tc: Checker, e: Expr)
    requires Wf(tc) && ElabExpr(ctx, tc, e).Some?
    ensures Frame(tc, ElabExpr(ctx, tc, e).value.tc)
    decreases e, 0
  {
    match e
    case Simple(op) => OpFrame(ctx, tc, op);
    case Block(sig, body) =>
      EnterEntered(tc, BlockLabel, sig);
      BodyFrame(ctx, tc, EnterLabel(tc, BlockLabel, sig).value, BlockLabel, sig, body);
    case Loop(sig, body) =>
      EnterEntered(tc, LoopLabel, sig);
      BodyFrame(ctx, tc, EnterLabel(tc, LoopLabel, sig).value, LoopLabel, sig, body);
    case If(sig, thn, hasElse, els) =>
      IfEntered(tc, sig);
      var tc1 := OnIf(tc, sig).value;
      if hasElse {
        ThenEntered(ctx, tc, tc1, sig, thn);
        BodyFrame(ctx, tc, ElabThen(ctx, Some(tc1), thn).value.tc, ElseLabel, sig, els);
      } else {
        BodyFrame(ctx, tc, tc1, IfLabel, sig, thn);
      }
    case Br(d) => UnreachableFrame(tc);
    case BrIf(d) =>
      PopFrame(tc, [I32]);
      var tc1 := PopSignature(tc, [I32]).value;
      PopPushFrame(tc1, tc1.LabelAt(d).BrTypes(), tc1.LabelAt(d).BrTypes());
    case BrTable(targets, default) =>
      PopFrame(tc, [I32]);
      UnreachableFrame(PopSignature(tc, [I32]).value);
    case Return =>
      PopFrame(tc, tc.labels[0].results);
      UnreachableFrame(PopSignature(tc, tc.labels[0].results).value);
    case Call(f) => PopPushFrame(tc, ctx.funcs[f].params, ctx.funcs[f].results);
    case Unreachable => UnreachableFrame(tc);
  }
}
