/** Runs of the C machine, and how the operand stack lies in its variables. */
module CSimulation {
  import opened Syntax
  import opened TypeChecker
  import opened CMachine
  import opened CLowering
  import S = Semantics

  /** A module, its C, and the bound on the depth of calls. */
  datatype CProg = CProg(m: Module, c: CModule, depth: nat)

  // ----- Runs -----------------------------------------------------------------------------------------

  ghost predicate Reaches(p: CProg, s: Config, t: Config, least: nat) {
    exists n: nat :: n >= least && Run(p.c, p.depth, s, n) == t
  }

  ghost predicate Exhausts(p: CProg, s: Config) {
    exists n: nat :: Run(p.c, p.depth, s, n).status == Exhausted
  }

  ghost predicate Traps(p: CProg, s: Config, kind: S.TrapKind) {
    exists n: nat :: Run(p.c, p.depth, s, n).status == Trapped(kind)
  }

  /** Still running after `k` steps or more. */
  ghost predicate Lasts(p: CProg, s: Config, k: nat) {
    exists n: nat :: n >= k && Run(p.c, p.depth, s, n).status == Running
  }

  lemma ReachesNow(p: CProg, s: Config)
    ensures Reaches(p, s, s, 0)
    ensures s.status == Running ==> Lasts(p, s, 0)
  {
    assert Run(p.c, p.depth, s, 0) == s;
  }

  lemma ReachesStep(p: CProg, s: Config)
    ensures Reaches(p, s, Step(p.c, p.depth, s), 1)
  {
    var t := Step(p.c, p.depth, s);
    assert Run(p.c, p.depth, t, 0) == t;
    assert Run(p.c, p.depth, s, 1) == t;
  }

  lemma ReachesTrans(p: CProg, s: Config, t: Config, u: Config, a: nat, b: nat)
    requires Reaches(p, s, t, a) && Reaches(p, t, u, b)
    ensures Reaches(p, s, u, a + b)
  {
    var n: nat :| n >= a && Run(p.c, p.depth, s, n) == t;
    var k: nat :| k >= b && Run(p.c, p.depth, t, k) == u;
    RunAdd(p.c, p.depth, s, n, k);
    assert Run(p.c, p.depth, s, n + k) == u;
  }

  lemma ReachesLess(p: CProg, s: Config, t: Config, a: nat, b: nat)
    requires Reaches(p, s, t, a) && b <= a
    ensures Reaches(p, s, t, b)
  {
  }

  lemma ExhaustsLater(p: CProg, s: Config, t: Config, a: nat)
    requires Reaches(p, s, t, a) && Exhausts(p, t)
    ensures Exhausts(p, s)
  {
    var n: nat :| n >= a && Run(p.c, p.depth, s, n) == t;
    var k: nat :| Run(p.c, p.depth, t, k).status == Exhausted;
    RunAdd(p.c, p.depth, s, n, k);
    assert Run(p.c, p.depth, s, n + k).status == Exhausted;
  }

  lemma TrapsLater(p: CProg, s: Config, t: Config, a: nat, kind: S.TrapKind)
    requires Reaches(p, s, t, a) && Traps(p, t, kind)
    ensures Traps(p, s, kind)
  {
    var n: nat :| n >= a && Run(p.c, p.depth, s, n) == t;
    var k: nat :| Run(p.c, p.depth, t, k).status == Trapped(kind);
    RunAdd(p.c, p.depth, s, n, k);
    assert Run(p.c, p.depth, s, n + k).status == Trapped(kind);
  }

  lemma LastsLater(p: CProg, s: Config, t: Config, a: nat, b: nat)
    requires Reaches(p, s, t, a) && Lasts(p, t, b)
    ensures Lasts(p, s, a + b)
  {
    var n: nat :| n >= a && Run(p.c, p.depth, s, n) == t;
    var k: nat :| k >= b && Run(p.c, p.depth, t, k).status == Running;
    RunAdd(p.c, p.depth, s, n, k);
    assert Run(p.c, p.depth, s, n + k).status == Running;
  }

  // ----- Values and variables -------------------------------------------------------------------------------

  /** `w` is a value that a C variable of type `ty` can hold unchanged. */
  predicate Fits(ty: Type, w: Word) {
    ty != Any && ConstWord(ty, w) == w
  }

  predicate FitsAll(types: seq<Type>, ws: seq<Word>) {
    |types| == |ws| && forall i :: 0 <= i < |ws| ==> Fits(types[i], ws[i])
  }

  /** Operand `i` is in the variable for position `i` and its type. */
  predicate Holds(vars: map<CVar, Word>, types: seq<Type>, stack: seq<Word>) {
    |types| == |stack|
    && forall i :: 0 <= i < |stack| ==> StackVar(i, types[i]) in vars && vars[StackVar(i, types[i])] == stack[i]
  }

  function GlobalTypes(gs: seq<Global>): (r: seq<Type>)
    ensures |r| == |gs| && forall g :: 0 <= g < |gs| ==> r[g] == gs[g].ty
  {
    seq(|gs|, g requires 0 <= g < |gs| => gs[g].ty)
  }

  /** The variables of an activation stand for a frame: the operands of all labels, locals, globals. */
  predicate EnvOk(ctx: Ctx, types: seq<Type>, vars: map<CVar, Word>, st: S.State) {
    && FitsAll(types, st.stack)
    && Holds(vars, types, st.stack)
    && FitsAll(ctx.locals, st.locals)
    && FitsAll(GlobalTypes(ctx.globals), st.globals)
  }

  /** The operand stacks of the outer labels below that of the innermost one. */
  function OnTop(outer: seq<Word>, st: S.State): S.State {
    st.(stack := outer + st.stack)
  }

  // ----- Straight-line instructions ---------------------------------------------------------------------------

  lemma UnderOuter(outer: seq<Word>, stack: seq<Word>, k: nat, v: Word)
    requires 1 <= k <= |stack|
    ensures S.Under(outer + stack, k) == outer + S.Under(stack, k)
    ensures S.Under(outer + stack, k) + [v] == outer + (S.Under(stack, k) + [v])
    ensures S.Top(outer + stack) == S.Top(stack)
    ensures (outer + stack)[|outer + stack| - k] == stack[|stack| - k]
  {
  }

  lemma PushOuter(outer: seq<Word>, stack: seq<Word>, v: Word)
    ensures (outer + stack) + [v] == outer + (stack + [v])
  {
  }

  /** Straight-line instructions do not look below their operands. */
  lemma OpOuter(op: Op, outer: seq<Word>, st: S.State)
    requires S.ExecOp(op, st) != S.Stuck
    ensures S.ExecOp(op, OnTop(outer, st))
         == if S.ExecOp(op, st).Normal? then S.Normal(OnTop(outer, S.ExecOp(op, st).state)) else S.ExecOp(op, st)
  {
    hide S.Under, S.Top, ApplyBin, ConstWord;
    var n := |st.stack|;
    match op
    case Const(ty, v) => PushOuter(outer, st.stack, ConstWord(ty, v));
    case Binary(bin) =>
      var r := ApplyBin(bin, st.stack[n - 2], st.stack[n - 1]);
      UnderOuter(outer, st.stack, 1, 0);
      UnderOuter(outer, st.stack, 2, if r.Some? then r.value else 0);
    case Select =>
      var w := if S.Top(st.stack) % TWO_32 != 0 then st.stack[n - 3] else st.stack[n - 2];
      UnderOuter(outer, st.stack, 2, 0);
      UnderOuter(outer, st.stack, 3, w);
    case LocalGet(x) => PushOuter(outer, st.stack, st.locals[x]);
    case GlobalGet(g) => PushOuter(outer, st.stack, st.globals[g]);
    case Nop =>
    case _ => UnderOuter(outer, st.stack, 1, 0);
  }

  /** Assigning the variable for position `k` replaces everything from there up. */
  lemma EnvPut(ctx: Ctx, types: seq<Type>, vars: map<CVar, Word>, st: S.State, k: nat, ty: Type, v: Word)
    requires EnvOk(ctx, types, vars, st) && k <= |types| && Fits(ty, v)
    ensures EnvOk(ctx, types[..k] + [ty], vars[StackVar(k, ty) := v], st.(stack := st.stack[..k] + [v]))
  {
  }

  lemma EnvDrop(ctx: Ctx, types: seq<Type>, vars: map<CVar, Word>, st: S.State, k: nat)
    requires EnvOk(ctx, types, vars, st) && k <= |types|
    ensures EnvOk(ctx, types[..k], vars, st.(stack := st.stack[..k]))
  {
  }

  lemma EnvRead(ctx: Ctx, types: seq<Type>, s: Config, st: S.State, k: nat)
    requires EnvOk(ctx, types, s.vars, st) && k < |types|
    ensures Read(s, Operand(types, k)) == Some(st.stack[|st.stack| - 1 - k])
    ensures Fits(types[|types| - 1 - k], st.stack[|st.stack| - 1 - k])
    ensures Operand(types, k) == StackVar(|types| - 1 - k, types[|types| - 1 - k])
  {
  }

  lemma EnvLocal(ctx: Ctx, types: seq<Type>, vars: map<CVar, Word>, st: S.State, x: nat, v: Word)
    requires EnvOk(ctx, types, vars, st) && x < |st.locals| && Fits(ctx.locals[x], v)
    ensures EnvOk(ctx, types, vars, st.(locals := st.locals[x := v]))
  {
  }

  lemma EnvGlobal(ctx: Ctx, types: seq<Type>, vars: map<CVar, Word>, st: S.State, g: nat, v: Word)
    requires EnvOk(ctx, types, vars, st) && g < |st.globals| && Fits(ctx.globals[g].ty, v)
    ensures EnvOk(ctx, types, vars, st.(globals := st.globals[g := v]))
  {
  }

  lemma EnvFits(ctx: Ctx, types: seq<Type>, vars: map<CVar, Word>, st: S.State)
    requires EnvOk(ctx, types, vars, st)
    ensures forall x :: 0 <= x < |st.locals| ==> Fits(ctx.locals[x], st.locals[x])
    ensures forall g :: 0 <= g < |st.globals| ==> Fits(ctx.globals[g].ty, st.globals[g])
  {
  }

  /** In reachable code a checked operand really has the type it is checked for. */
  lemma PopConcrete(tc: Checker, sig: seq<Type>)
    requires Wf(tc) && !tc.Top().unreachable && PopSignature(tc, sig).Some? && Concrete(tc.types) && Concrete(sig)
    ensures tc.Top().limit + |sig| <= |tc.types|
    ensures PopSignature(tc, sig).value == tc.(types := DropN(tc.types, |sig|))
    ensures tc.types == DropN(tc.types, |sig|) + sig
  {
    forall i | 0 <= i < |sig| ensures tc.types[|tc.types| - |sig| + i] == sig[i] {
      assert PeekIs(tc, |sig| - i - 1, sig[i]);
    }
  }

  lemma FitsConcrete(types: seq<Type>, ws: seq<Word>)
    requires FitsAll(types, ws)
    ensures Concrete(types)
  {
  }

  /** A function of the module and its C. */
  predicate InFunc(p: CProg, f: nat) {
    p.c == LowerModule(p.m) && f < |p.m.funcs| && ConcreteModule(p.m)
  }

  lemma InFuncTypes(p: CProg, f: nat)
    requires InFunc(p, f)
    ensures |p.c.funcs| == |p.m.funcs| && p.c.funcs[f].locals == CtxOf(p.m, f).locals
    ensures p.c.globals == GlobalTypes(CtxOf(p.m, f).globals)
    ensures Concrete(CtxOf(p.m, f).locals)
  {
    assert ConcreteFunc(p.m.funcs[f]);
  }

  /** One assignment stands for one straight-line instruction. */
  predicate OpDone(ctx: Ctx, types: seq<Type>, s: Config, t: Config, o: S.Outcome) {
    || (o.Trapped? && t.status == Trapped(o.kind))
    || (&& o.Normal?
        && t == s.(vars := t.vars, locals := o.state.locals, globals := o.state.globals)
        && EnvOk(ctx, types, t.vars, o.state))
  }

  /** The configuration is in function `f` and its variables stand for `st`. */
  predicate Stands(p: CProg, f: nat, types: seq<Type>, s: Config, st: S.State) {
    && InFunc(p, f)
    && s.status == Running && s.f == f && s.locals == st.locals && s.globals == st.globals
    && EnvOk(CtxOf(p.m, f), types, s.vars, st)
  }

  lemma PushDone(p: CProg, f: nat, types: seq<Type>, s: Config, st: S.State, ty: Type, v: Word, w: Word)
    requires Stands(p, f, types, s, st) && Fits(ty, v) && ConstWord(ty, w) == v
    ensures OpDone(CtxOf(p.m, f), types + [ty], s, Store(p.c, s, StackVar(|types|, ty), w),
                   S.Normal(st.(stack := st.stack + [v])))
  {
    hide LowerModule, ConcreteModule, CtxOf, ConstWord;
    assert types[..|types|] == types && st.stack[..|types|] == st.stack;
    EnvPut(CtxOf(p.m, f), types, s.vars, st, |types|, ty, v);
  }

  lemma SmallWord(w: Word)
    requires w < TWO_32
    ensures Fits(I32, w)
  {
  }

  lemma WideWord(w: Word)
    ensures Fits(I64, w)
  {
  }

  lemma QuotientBelow(a: nat, b: nat)
    requires b != 0
    ensures a / b <= a
  {
    var q := a / b;
    assert a == q * b + a % b;
    NoSmaller(q, b);
  }

  lemma NoSmaller(q: nat, b: nat)
    requires b != 0
    ensures q <= q * b
  {
  }

  lemma BinaryFits(bin: BinOp, a: Word, b: Word)
    requires ApplyBin(bin, a, b).Some?
    ensures Fits(BinResult(bin), ApplyBin(bin, a, b).value)
  {
    hide Fits;
    var w := ApplyBin(bin, a, b).value;
    if bin == I64Add {
      WideWord(w);
    } else {
      if bin == I32DivU {
        QuotientBelow(a % TWO_32, b % TWO_32);
      }
      SmallWord(w);
    }
  }

  /** Both operands are read from the variables of the operator's own operand type, and the result goes
      into the variable of its result type: `op=` writes the same. */
  lemma BinaryLowered(ctx: Ctx, tc: Checker, bin: BinOp)
    requires Wf(tc) && !tc.Top().unreachable && Concrete(tc.types) && OnOp(ctx, tc, Binary(bin)).Some?
    ensures var n, ty := |tc.types|, BinParam(bin);
            && n >= 2
            && tc.types[n - 2] == tc.types[n - 1] == ty
            && OnOp(ctx, tc, Binary(bin)).value.types == tc.types[..n - 2] + [BinResult(bin)]
            && LowerBinary(tc.types, bin)
               == ([Assign(StackVar(n - 2, BinResult(bin)), Infix(bin, StackVar(n - 2, ty), StackVar(n - 1, ty)))],
                   tc.types[..n - 2] + [BinResult(bin)])
  {
    hide PopSignature;
    var n, ty := |tc.types|, BinParam(bin);
    PopConcrete(tc, [ty, ty]);
    assert tc.types == tc.types[..n - 2] + [ty, ty];
  }

  lemma BinaryDone(p: CProg, f: nat, tc: Checker, bin: BinOp, s: Config, st: S.State)
    requires Stands(p, f, tc.types, s, st) && Wf(tc) && !tc.Top().unreachable
    requires OnOp(CtxOf(p.m, f), tc, Binary(bin)).Some?
    ensures |st.stack| >= 2
    ensures var (code, types) := LowerBinary(tc.types, bin);
            && types == OnOp(CtxOf(p.m, f), tc, Binary(bin)).value.types
            && |code| == 1 && code[0].Assign?
            && OpDone(CtxOf(p.m, f), types, s, ExecAssign(p.c, s, code[0].dst, code[0].e), S.ExecOp(Binary(bin), st))
  {
    hide LowerModule, ConcreteModule, CtxOf, ConstWord, ApplyBin, EnvOk, LowerBinary, OnOp, Wf, BinParam, BinResult;
    var ctx, n, ty := CtxOf(p.m, f), |tc.types|, BinParam(bin);
    EnvTypes(ctx, tc.types, s.vars, st);
    BinaryLowered(ctx, tc, bin);
    EnvRead(ctx, tc.types, s, st, 0);
    EnvRead(ctx, tc.types, s, st, 1);
    var a, b := st.stack[n - 2], st.stack[n - 1];
    var r := ApplyBin(bin, a, b);
    if r.Some? {
      BinaryFits(bin, a, b);
      EnvPut(ctx, tc.types, s.vars, st, n - 2, BinResult(bin), r.value);
    }
  }

  lemma EnvTypes(ctx: Ctx, types: seq<Type>, vars: map<CVar, Word>, st: S.State)
    requires EnvOk(ctx, types, vars, st)
    ensures Concrete(types) && |types| == |st.stack| && |st.locals| == |ctx.locals| && |st.globals| == |ctx.globals|
  {
    FitsConcrete(types, st.stack);
  }

  lemma SelectDone(p: CProg, f: nat, tc: Checker, s: Config, st: S.State)
    requires Stands(p, f, tc.types, s, st) && Wf(tc) && !tc.Top().unreachable
    requires OnSelect(tc).Some?
    ensures |st.stack| >= 3
    ensures var (code, types) := LowerOp(CtxOf(p.m, f), tc.types, Select);
            && types == OnSelect(tc).value.types
            && |code| == 1 && code[0].Assign?
            && OpDone(CtxOf(p.m, f), types, s, ExecAssign(p.c, s, code[0].dst, code[0].e), S.ExecOp(Select, st))
  {
    hide LowerModule, ConcreteModule, CtxOf, EnvOk;
    var ctx, n := CtxOf(p.m, f), |tc.types|;
    EnvTypes(ctx, tc.types, s.vars, st);
    EnvRead(ctx, tc.types, s, st, 0);
    EnvRead(ctx, tc.types, s, st, 1);
    EnvRead(ctx, tc.types, s, st, 2);
    var w := if S.Top(st.stack) % TWO_32 != 0 then st.stack[n - 3] else st.stack[n - 2];
    EnvPut(ctx, tc.types, s.vars, st, n - 3, tc.types[n - 3], w);
  }

  lemma LocalDone(p: CProg, f: nat, tc: Checker, op: Op, s: Config, st: S.State)
    requires Stands(p, f, tc.types, s, st) && Wf(tc) && !tc.Top().unreachable
    requires op.LocalSet? || op.LocalTee?
    requires OnOp(CtxOf(p.m, f), tc, op).Some?
    ensures |st.stack| >= 1 && op.x < |st.locals|
    ensures var (code, types) := LowerOp(CtxOf(p.m, f), tc.types, op);
            && types == OnOp(CtxOf(p.m, f), tc, op).value.types
            && |code| == 1 && code[0].Assign?
            && OpDone(CtxOf(p.m, f), types, s, ExecAssign(p.c, s, code[0].dst, code[0].e), S.ExecOp(op, st))
  {
    hide LowerModule, ConcreteModule, CtxOf, EnvOk, PopSignature;
    var ctx, n := CtxOf(p.m, f), |tc.types|;
    InFuncTypes(p, f);
    EnvTypes(ctx, tc.types, s.vars, st);
    PopConcrete(tc, [ctx.locals[op.x]]);
    EnvRead(ctx, tc.types, s, st, 0);
    EnvLocal(ctx, tc.types, s.vars, st, op.x, S.Top(st.stack));
    EnvDrop(ctx, tc.types, s.vars, st.(locals := st.locals[op.x := S.Top(st.stack)]), n - 1);
  }

  lemma GlobalDone(p: CProg, f: nat, tc: Checker, g: nat, s: Config, st: S.State)
    requires Stands(p, f, tc.types, s, st) && Wf(tc) && !tc.Top().unreachable
    requires OnOp(CtxOf(p.m, f), tc, GlobalSet(g)).Some?
    ensures |st.stack| >= 1 && g < |st.globals|
    ensures var (code, types) := LowerOp(CtxOf(p.m, f), tc.types, GlobalSet(g));
            && types == OnOp(CtxOf(p.m, f), tc, GlobalSet(g)).value.types
            && |code| == 1 && code[0].Assign?
            && OpDone(CtxOf(p.m, f), types, s, ExecAssign(p.c, s, code[0].dst, code[0].e), S.ExecOp(GlobalSet(g), st))
  {
    hide LowerModule, ConcreteModule, EnvOk, PopSignature;
    var ctx, n := CtxOf(p.m, f), |tc.types|;
    InFuncTypes(p, f);
    GlobalConcrete(p, f, g);
    EnvTypes(ctx, tc.types, s.vars, st);
    PopConcrete(tc, [ctx.globals[g].ty]);
    EnvRead(ctx, tc.types, s, st, 0);
    EnvGlobal(ctx, tc.types, s.vars, st, g, S.Top(st.stack));
    EnvDrop(ctx, tc.types, s.vars, st.(globals := st.globals[g := S.Top(st.stack)]), n - 1);
  }

  lemma GlobalConcrete(p: CProg, f: nat, g: nat)
    requires InFunc(p, f) && g < |p.m.globals|
    ensures CtxOf(p.m, f).globals[g].ty != Any
  {
  }

  lemma GetDone(p: CProg, f: nat, tc: Checker, op: Op, s: Config, st: S.State)
    requires Stands(p, f, tc.types, s, st) && ConcreteExpr(Simple(op))
    requires op.Const? || op.LocalGet? || op.GlobalGet?
    requires OnOp(CtxOf(p.m, f), tc, op).Some?
    ensures S.ExecOp(op, st) != S.Stuck
    ensures var (code, types) := LowerOp(CtxOf(p.m, f), tc.types, op);
            && types == OnOp(CtxOf(p.m, f), tc, op).value.types
            && |code| == 1 && code[0].Assign?
            && OpDone(CtxOf(p.m, f), types, s, ExecAssign(p.c, s, code[0].dst, code[0].e), S.ExecOp(op, st))
  {
    hide LowerModule, ConcreteModule, EnvOk, CtxOf;
    var ctx := CtxOf(p.m, f);
    EnvTypes(ctx, tc.types, s.vars, st);
    EnvFits(ctx, tc.types, s.vars, st);
    match op
    case Const(ty, v) => PushDone(p, f, tc.types, s, st, ty, ConstWord(ty, v), v);
    case LocalGet(x) =>
      PushDone(p, f, tc.types, s, st, ctx.locals[x], st.locals[x], st.locals[x]);
    case GlobalGet(g) =>
      PushDone(p, f, tc.types, s, st, ctx.globals[g].ty, st.globals[g], st.globals[g]);
    case _ =>
  }

  /** Every straight-line instruction: at most one assignment, with the operand stack moving in step
      with the type stack. */
  lemma OpLowered(p: CProg, f: nat, tc: Checker, op: Op, s: Config, st: S.State)
    requires Stands(p, f, tc.types, s, st) && Wf(tc) && !tc.Top().unreachable && ConcreteExpr(Simple(op))
    requires OnOp(CtxOf(p.m, f), tc, op).Some?
    ensures S.ExecOp(op, st) != S.Stuck && (S.ExecOp(op, st).Normal? || S.ExecOp(op, st).Trapped?)
    ensures var (code, types) := LowerOp(CtxOf(p.m, f), tc.types, op);
            var o := S.ExecOp(op, st);
            && types == OnOp(CtxOf(p.m, f), tc, op).value.types
            && |code| <= 1
            && (code == [] ==> o.Normal? && OpDone(CtxOf(p.m, f), types, s, s, o))
            && (code != [] ==> code[0].Assign?
                               && OpDone(CtxOf(p.m, f), types, s, ExecAssign(p.c, s, code[0].dst, code[0].e), o))
  {
    hide LowerModule, ConcreteModule, EnvOk, CtxOf, OpDone, ExecAssign, OnSelect, LowerBinary;
    match op
    case Binary(bin) => BinaryDone(p, f, tc, bin, s, st);
    case Select => SelectDone(p, f, tc, s, st);
    case LocalSet(_) => LocalDone(p, f, tc, op, s, st);
    case LocalTee(_) => LocalDone(p, f, tc, op, s, st);
    case GlobalSet(g) => GlobalDone(p, f, tc, g, s, st);
    case Drop => DropDone(p, f, tc, s, st);
    case Nop => NopDone(p, f, tc, s, st);
    case _ => GetDone(p, f, tc, op, s, st);
  }

  lemma NopDone(p: CProg, f: nat, tc: Checker, s: Config, st: S.State)
    requires Stands(p, f, tc.types, s, st)
    ensures OpDone(CtxOf(p.m, f), tc.types, s, s, S.ExecOp(Nop, st))
  {
    hide LowerModule, ConcreteModule, EnvOk, CtxOf;
  }

  lemma DropDone(p: CProg, f: nat, tc: Checker, s: Config, st: S.State)
    requires Stands(p, f, tc.types, s, st) && Wf(tc) && !tc.Top().unreachable && DropTypes(tc, 1).Some?
    ensures |st.stack| >= 1
    ensures DropN(tc.types, 1) == DropTypes(tc, 1).value.types
    ensures OpDone(CtxOf(p.m, f), DropN(tc.types, 1), s, s, S.ExecOp(Drop, st))
  {
    hide LowerModule, ConcreteModule, EnvOk, CtxOf;
    EnvTypes(CtxOf(p.m, f), tc.types, s.vars, st);
    EnvDrop(CtxOf(p.m, f), tc.types, s.vars, st, |tc.types| - 1);
  }
}
