/** What `CWriter` writes for an instruction list: a type stack tells which variable every operand is
    in, a label stack where to jump and what to copy there first. */
module CLowering {
  import opened Syntax
  import opened CMachine
  import opened TypeChecker

  /** `mark` is the height of the type stack where the label was pushed. */
  datatype CLabel = CLabel(loop: bool, results: seq<Type>, mark: nat, id: nat) {
    predicate HasValue() {
      !loop && results != []
    }
  }

  /** Statements, the type stack behind them, and the next unused label. */
  datatype Lowered = Lowered(code: seq<CStmt>, types: seq<Type>, next: nat)

  /** `StackVar(k)` without a type: the variable that holds the operand `k` below the top. */
  function Operand(types: seq<Type>, k: nat): CVar {
    if k < |types| then StackVar(|types| - 1 - k, types[|types| - 1 - k]) else StackVar(0, Any)
  }

  function DropN(types: seq<Type>, n: nat): seq<Type> {
    if n <= |types| then types[..|types| - n] else []
  }

  /** `ResetTypeStack`. */
  function Reset(types: seq<Type>, mark: nat): seq<Type> {
    if mark <= |types| then types[..mark] else types
  }

  /** A branch: the label's value is copied to where its operand belongs, unless it is there already. */
  function GotoCode(types: seq<Type>, labels: seq<CLabel>, d: int): seq<CStmt> {
    if !(0 <= d < |labels|) then []
    else
      var l := labels[|labels| - 1 - d];
      (if l.HasValue() && |types| - l.mark - 1 != 0
       then [Assign(StackVar(l.mark, l.results[0]), Value(Operand(types, 0)))]
       else [])
      + [Goto(l.id)]
  }

  function LowerBinary(types: seq<Type>, bin: BinOp): (seq<CStmt>, seq<Type>) {
    var n, ty := |types|, BinResult(bin);
    var dst := StackVar(if n >= 2 then n - 2 else 0, ty);
    // `op=` for the symmetric operators, otherwise both operands spelled out.
    var lhs := if bin == I32Add || bin == I32Sub || bin == I64Add then dst else Operand(types, 1);
    ([Assign(dst, Infix(bin, lhs, Operand(types, 0)))], DropN(types, 2) + [ty])
  }

  function LowerOp(ctx: Ctx, types: seq<Type>, op: Op): (seq<CStmt>, seq<Type>) {
    match op
    case Const(ty, v) => ([Assign(StackVar(|types|, ty), Literal(v))], types + [ty])
    case Binary(bin) => LowerBinary(types, bin)
    case Drop => ([], DropN(types, 1))
    case Select =>
      ([Assign(Operand(types, 2), Choose(Operand(types, 0), Operand(types, 2), Operand(types, 1)))],
       DropN(types, 3) + [Operand(types, 1).ty])
    case Nop => ([], types)
    case LocalGet(x) =>
      var ty := if x < |ctx.locals| then ctx.locals[x] else Any;
      ([Assign(StackVar(|types|, ty), Value(LocalVar(x)))], types + [ty])
    case LocalSet(x) => ([Assign(LocalVar(x), Value(Operand(types, 0)))], DropN(types, 1))
    case LocalTee(x) => ([Assign(LocalVar(x), Value(Operand(types, 0)))], types)
    case GlobalGet(g) =>
      var ty := if g < |ctx.globals| then ctx.globals[g].ty else Any;
      ([Assign(StackVar(|types|, ty), Value(GlobalVar(g)))], types + [ty])
    case GlobalSet(g) => ([Assign(GlobalVar(g), Value(Operand(types, 0)))], DropN(types, 1))
  }

  /** Every case of a branch table jumps. */
  function Cases(types: seq<Type>, labels: seq<CLabel>, targets: seq<nat>): (r: seq<CCase>)
    ensures |r| == |targets| && forall k :: 0 <= k < |r| ==> r[k] == CCase(GotoCode(types, labels, targets[k]))
  {
    seq(|targets|, k requires 0 <= k < |targets| => CCase(GotoCode(types, labels, targets[k])))
  }

  /** The top `n` operands, the lowest first. */
  function Args(types: seq<Type>, n: nat): (r: seq<CVar>)
    ensures |r| == n && forall i :: 0 <= i < n ==> r[i] == Operand(types, n - 1 - i)
  {
    seq(n, i requires 0 <= i < n => Operand(types, n - 1 - i))
  }

  function LowerCall(ctx: Ctx, types: seq<Type>, f: nat): (seq<CStmt>, seq<Type>) {
    var sig := if f < |ctx.funcs| then ctx.funcs[f] else Sig([], []);
    var np := |sig.params|;
    var dst := if sig.results == [] then None
               else Some(StackVar(if np <= |types| then |types| - np else 0, sig.results[0]));
    ([CallStmt(dst, f, Args(types, np))],
     DropN(types, np) + sig.results)
  }

  // ----- Used labels -----------------------------------------------------------------------------------

  predicate UsesAny(cases: seq<CCase>, id: nat) {
    cases != [] && (UsesList(cases[0].code, id) || UsesAny(cases[1..], id))
  }

  predicate UsesList(code: seq<CStmt>, id: nat) {
    code != [] && (Uses(code[0], id) || UsesList(code[1..], id))
  }

  /** The statement contains a `goto` to the label. */
  predicate Uses(stmt: CStmt, id: nat) {
    match stmt
    case Goto(l) => l == id
    case IfStmt(_, thn, els) => UsesList(thn, id) || UsesList(els, id)
    case Switch(_, cases, default) => UsesAny(cases, id) || UsesList(default, id)
    case _ => false
  }

  /** A label is only written if something jumps to it. */
  function Decl(code: seq<CStmt>, id: nat): seq<CStmt> {
    if UsesList(code, id) then [LabelDecl(id)] else []
  }

  // ----- Instruction lists -----------------------------------------------------------------------------

  predicate IsJump(e: Expr) {
    e.Br? || e.BrTable? || e.Return? || e.Unreachable?
  }

  /** The list is cut behind its first unconditional jump. */
  function LowerList(ctx: Ctx, es: ExprList, types: seq<Type>, labels: seq<CLabel>, next: nat): Lowered
    decreases es
  {
    match es
    case Nil => Lowered([], types, next)
    case Cons(e, rest) =>
      var h := LowerExpr(ctx, e, types, labels, next);
      if IsJump(e) then h
      else
        var t := LowerList(ctx, rest, h.types, labels, h.next);
        Lowered(h.code + t.code, t.types, t.next)
  }

  function LowerExpr(ctx: Ctx, e: Expr, types: seq<Type>, labels: seq<CLabel>, next: nat): Lowered
    decreases e
  {
    match e
    case Simple(op) => var r := LowerOp(ctx, types, op); Lowered(r.0, r.1, next)
    case Block(sig, body) =>
      var b := LowerList(ctx, body, types, labels + [CLabel(false, sig.results, |types|, next)], next + 1);
      Lowered(b.code + Decl(b.code, next), Reset(b.types, |types|) + sig.results, b.next)
    case Loop(sig, body) =>
      if body == Nil then Lowered([], types, next)
      else
        var b := LowerList(ctx, body, types, labels + [CLabel(true, sig.results, |types|, next)], next + 1);
        Lowered([LabelDecl(next)] + b.code, Reset(b.types, |types|) + sig.results, b.next)
    case If(sig, thn, hasElse, els) =>
      var types0 := DropN(types, 1);
      var labels' := labels + [CLabel(false, sig.results, |types0|, next)];
      var t := LowerList(ctx, thn, types0, labels', next + 1);
      var f := if hasElse then LowerList(ctx, els, Reset(t.types, |types0|), labels', t.next)
        else Lowered([], t.types, t.next);
      var stmt := IfStmt(Operand(types, 0), t.code, f.code);
      Lowered([stmt] + Decl([stmt], next), Reset(f.types, |types0|) + sig.results, f.next)
    case Br(d) => Lowered(GotoCode(types, labels, d), types, next)
    case BrIf(d) =>
      var types0 := DropN(types, 1);
      Lowered([IfStmt(Operand(types, 0), GotoCode(types0, labels, d), [])], types0, next)
    case BrTable(targets, default) =>
      var types0 := DropN(types, 1);
      Lowered([Switch(Operand(types, 0), Cases(types0, labels, targets), GotoCode(types0, labels, default))], types0,
              next)
    case Return => Lowered(GotoCode(types, labels, |labels| - 1), types, next)
    case Call(f) => var r := LowerCall(ctx, types, f); Lowered(r.0, r.1, next)
    case Unreachable => Lowered([TrapStmt], types, next)
  }

  function LowerFunc(m: Module, f: nat): CFunc
    requires f < |m.funcs|
  {
    var fn, ctx := m.funcs[f], CtxOf(m, f);
    var b := LowerList(ctx, fn.body, [], [CLabel(false, fn.sig.results, 0, 0)], 1);
    CFunc(fn.sig, ctx.locals, b.code + Decl(b.code, 0))
  }

  function LowerModule(m: Module): (c: CModule)
    ensures |c.funcs| == |m.funcs| && forall f :: 0 <= f < |m.funcs| ==> c.funcs[f] == LowerFunc(m, f)
    ensures |c.globals| == |m.globals| && forall g :: 0 <= g < |m.globals| ==> c.globals[g] == m.globals[g].ty
  {
    CModule(seq(|m.funcs|, f requires 0 <= f < |m.funcs| => LowerFunc(m, f)),
            seq(|m.globals|, g requires 0 <= g < |m.globals| => m.globals[g].ty))
  }
}
