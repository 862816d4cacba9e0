/** Compiling a module and running one of its functions: the emitted bytes and the structured
    semantics agree on every result, trap and divergence. */
module Compiler {
  import opened Syntax
  import opened Bytecode
  import opened Machine
  import opened TypeChecker
  import opened Elaborate
  import opened Layout
  import opened Linking
  import opened DropKeepSpec
  import opened Simulation
  import opened SimulateOps
  import opened Correctness
  import S = Semantics

  // ----- Which modules ---------------------------------------------------------------------------

  ghost predicate SupportedFunc(fn: Func, c: FuncCode) {
    && LocalCount(fn.decls) < TWO_32
    && BalancedIfs(fn.body)
    && InOrderList(c.body)
    && InOrderCode(Plain(c.exit))
  }

  /** Every emitted drop/keep pair is one that `DropKeep` gets right, and no `if` without `else`
      takes parameters. */
  ghost predicate Supported(m: Module, cs: seq<FuncCode>) {
    |cs| == |m.funcs| && forall f :: 0 <= f < |cs| ==> SupportedFunc(m.funcs[f], cs[f])
  }

  predicate NarrowLabels(tc: Checker) {
    forall i :: 0 <= i < |tc.labels| ==> |tc.labels[i].BrTypes()| <= 1
  }

  lemma NarrowFrame(tc: Checker, tc': Checker)
    requires NarrowLabels(tc) && TypeChecker.Frame(tc, tc')
    ensures NarrowLabels(tc')
  {
    hide Nested;
    var n := |tc.labels| - 1;
    forall i | 0 <= i < |tc'.labels| ensures |tc'.labels[i].BrTypes()| <= 1 {
      if i < n {
        assert tc'.labels[i] == tc'.labels[..n][i] == tc.labels[..n][i] == tc.labels[i];
      } else {
        assert |tc.labels[n].BrTypes()| <= 1;
      }
    }
  }

  lemma NarrowEntered(tc: Checker, tc': Checker, kind: Kind, sig: Sig)
    requires NarrowLabels(tc) && Entered(tc, tc', kind, sig) && NarrowSig(sig)
    ensures NarrowLabels(tc')
  {
    hide Nested;
    forall i | 0 <= i < |tc'.labels| ensures |tc'.labels[i].BrTypes()| <= 1 {
      if i < |tc.labels| {
        assert tc'.labels[i] == tc'.labels[..|tc.labels|][i];
      }
    }
  }

  lemma NarrowJump(tc: Checker, d: nat)
    requires NarrowLabels(tc) && d < |tc.labels|
    ensures InOrderJump(JumpTo(tc, d))
  {
  }

  lemma NarrowReturn(ctx: Ctx, tc: Checker)
    requires NarrowLabels(tc) && tc.labels != []
    ensures InOrderCode(Plain(ReturnInstrs(ctx, tc)))
  {
  }

  lemma NarrowOp(ctx: Ctx, tc: Checker, after: Checker, op: Op)
    ensures InOrderCode(Plain(OpInstrs(ctx, tc, after, op)))
  {
  }

  lemma {:induction false} NarrowBody(ctx: Ctx, tc: Checker, tc1: Checker, kind: Kind, sig: Sig, body: ExprList)
    requires NarrowLabels(tc) && Entered(tc, tc1, kind, sig) && NarrowSig(sig) && NarrowList(body)
    requires ElabList(ctx, tc1, body).Some?
    ensures InOrderList(ElabList(ctx, tc1, body).value.code) && BalancedIfs(body)
    decreases body, 1
  {
    hide Nested, ElabList, InOrderList, BalancedIfs, NarrowLabels;
    NarrowEntered(tc, tc1, kind, sig);
    InOrderNarrow(ctx, tc1, body);
  }

  /** At most one value per label is always in order. */
  lemma {:induction false} InOrderNarrow(ctx: Ctx, tc: Checker, es: ExprList)
    requires Wf(tc) && NarrowLabels(tc) && NarrowList(es) && ElabList(ctx, tc, es).Some?
    ensures InOrderList(ElabList(ctx, tc, es).value.code) && BalancedIfs(es)
    decreases es, 0
  {
    hide NarrowLabels, Nested, ElabExpr, NarrowExpr, BalancedIf, InOrderCode;
    match es
    case Nil =>
    case Cons(e, rest) =>
      InOrderNarrowExpr(ctx, tc, e);
      ExprFrame(ctx, tc, e);
      var tc1 := ElabExpr(ctx, tc, e).value.tc;
      NarrowFrame(tc, tc1);
      InOrderNarrow(ctx, tc1, rest);
  }

  lemma {:induction false} InOrderNarrowIf(ctx: Ctx, tc: Checker, sig: Sig, thn: ExprList, hasElse: bool, els: ExprList)
    requires var e := If(sig, thn, hasElse, els);
             Wf(tc) && NarrowLabels(tc) && NarrowExpr(e) && ElabExpr(ctx, tc, e).Some?
    ensures var e := If(sig, thn, hasElse, els);
            InOrderCode(ElabExpr(ctx, tc, e).value.code) && BalancedIf(e)
    decreases If(sig, thn, hasElse, els), -1
  {
    hide NarrowLabels, OnIf, OnElse, OnEnd, ElabList, Entered;
    IfEntered(tc, sig);
    var tc1 := OnIf(tc, sig).value;
    NarrowBody(ctx, tc, tc1, IfLabel, sig, thn);
    if hasElse {
      ThenEntered(ctx, tc, tc1, sig, thn);
      NarrowBody(ctx, tc, ElabThen(ctx, Some(tc1), thn).value.tc, ElseLabel, sig, els);
    }
  }

  lemma {:induction false} InOrderNarrowExpr(ctx: Ctx, tc: Checker, e: Expr)
    requires Wf(tc) && NarrowLabels(tc) && NarrowExpr(e) && ElabExpr(ctx, tc, e).Some?
    ensures InOrderCode(ElabExpr(ctx, tc, e).value.code) && BalancedIf(e)
    decreases e, 0
  {
    hide NarrowLabels, InOrderJump, JumpTo, ReturnInstrs, OpInstrs, OnBrIf, EnterLabel, OnEnd, ElabList, Entered, OnOp;
    match e
    case Simple(op) =>
      if OnOp(ctx, tc, op).Some? {
        NarrowOp(ctx, tc, OnOp(ctx, tc, op).value, op);
      }
    case Block(sig, body) =>
      EnterEntered(tc, BlockLabel, sig);
      NarrowBody(ctx, tc, EnterLabel(tc, BlockLabel, sig).value, BlockLabel, sig, body);
    case Loop(sig, body) =>
      EnterEntered(tc, LoopLabel, sig);
      NarrowBody(ctx, tc, EnterLabel(tc, LoopLabel, sig).value, LoopLabel, sig, body);
    case If(sig, thn, hasElse, els) => InOrderNarrowIf(ctx, tc, sig, thn, hasElse, els);
    case Br(d) => NarrowJump(tc, d);
    case BrIf(d) =>
      ExprFrame(ctx, tc, e);
      NarrowFrame(tc, OnBrIf(tc, d).value);
      NarrowJump(OnBrIf(tc, d).value, d);
    case BrTable(targets, default) => InOrderNarrowTable(ctx, tc, targets, default);
    case Return => NarrowReturn(ctx, tc);
    case Call(f) =>
    case Unreachable =>
  }

  lemma InOrderNarrowTable(ctx: Ctx, tc: Checker, targets: seq<nat>, default: nat)
    requires Wf(tc) && NarrowLabels(tc) && ElabBrTable(tc, targets, default).Some?
    ensures InOrderCode(ElabBrTable(tc, targets, default).value.code)
  {
    hide NarrowLabels, InOrderJump, JumpTo, PopSignature, TargetOk;
    PopFrame(tc, [I32]);
    var tc1, all := PopSignature(tc, [I32]).value, targets + [default];
    NarrowFrame(tc, tc1);
    forall k | 0 <= k < |all| ensures InOrderJump(JumpsTo(tc1, all)[k]) {
      NarrowJump(tc1, all[k]);
    }
  }

  /** Every validated WebAssembly 1.0 module is supported. */
  lemma NarrowSupported(m: Module, cs: seq<FuncCode>)
    requires Narrow(m) && ElabFuncs(m, |m.funcs|) == Some(cs)
    ensures Supported(m, cs)
  {
    hide ElabFuncs, ElabList, InOrderList, InOrderCode, BalancedIfs, EndFunction, ReturnInstrs, NarrowList, CtxOf;
    forall f | 0 <= f < |cs| ensures SupportedFunc(m.funcs[f], cs[f]) {
      ElabFuncsAt(m, cs, |m.funcs|, f);
      var fn, ctx := m.funcs[f], CtxOf(m, f);
      var tc := BeginFunction(fn.sig.results);
      InOrderNarrow(ctx, tc, fn.body);
      ListFrame(ctx, tc, fn.body);
      var tc1 := ElabList(ctx, tc, fn.body).value.tc;
      NarrowFrame(tc, tc1);
      NarrowReturn(ctx, tc1);
    }
  }

  lemma {:induction false} ElabFuncsAt(m: Module, cs: seq<FuncCode>, k: nat, f: nat)
    requires k <= |m.funcs| && ElabFuncs(m, k) == Some(cs) && f < k
    ensures ElabFunc(m, f) == Some(cs[f])
    decreases k
  {
    hide ElabFunc;
    if f < k - 1 {
      ElabFuncsAt(m, cs[..k - 1], k - 1, f);
    }
  }

  // ----- The loaded program ------------------------------------------------------------------------

  /** The program that reading a module leaves behind. */
  function Linked(m: Module, cs: seq<FuncCode>, base: seq<Byte>, lim: Limits): Prog {
    Prog(m, base + Link(cs, |base|), FuncOffsets(cs, |base|), lim)
  }

  /** A module that validates, with usable counts, in sizes that fit 32 bits. */
  ghost predicate Compiled(m: Module, cs: seq<FuncCode>, base: seq<Byte>, lim: Limits) {
    && ElabFuncs(m, |m.funcs|) == Some(cs)
    && Supported(m, cs)
    && Small(Linked(m, cs, base, lim))
  }

  lemma CompiledLoaded(m: Module, cs: seq<FuncCode>, base: seq<Byte>, lim: Limits)
    requires Compiled(m, cs, base, lim)
    ensures Loaded(Linked(m, cs, base, lim), cs)
  {
    hide ElabFunc, ElabFuncs, GenFuncs, GenFunc, FuncPos, BalancedIfs, InOrderList, InOrderCode;
    var p := Linked(m, cs, base, lim);
    forall f | 0 <= f < |cs| ensures FuncLoaded(p, cs[f], f) {
      ElabFuncsAt(m, cs, |m.funcs|, f);
      LinkedAt(p.code, p.offsets, cs, |base|, f);
      assert SupportedFunc(m.funcs[f], cs[f]);
    }
  }

  /** `Executor` about to run function `f`: the arguments on an otherwise empty stack. */
  function Start(p: Prog, f: nat, args: seq<Word>, globals: seq<Word>): Config
    requires f < |p.offsets|
  {
    Config(Running, p.offsets[f], args, [], globals)
  }

  /** What a caller has to supply. */
  predicate Callable(m: Module, lim: Limits, f: nat, args: seq<Word>, globals: seq<Word>) {
    && f < |m.funcs|
    && |args| == |m.funcs[f].sig.params| <= lim.values
    && |globals| == |m.globals|
  }

  // ----- Determinism of runs -------------------------------------------------------------------------

  lemma RunStays(code: seq<Byte>, lim: Limits, s: Config, n: nat, k: nat)
    requires Run(code, lim, s, n).status != Running && n <= k
    ensures Run(code, lim, s, k) == Run(code, lim, s, n)
  {
    RunAdd(code, lim, s, n, k - n);
    RunHalted(code, lim, Run(code, lim, s, n), k - n);
  }

  /** Two halted configurations of one run are the same. */
  lemma RunUnique(code: seq<Byte>, lim: Limits, s: Config, n: nat, k: nat)
    requires Run(code, lim, s, n).status != Running && Run(code, lim, s, k).status != Running
    ensures Run(code, lim, s, k) == Run(code, lim, s, n)
  {
    if n <= k {
      RunStays(code, lim, s, n, k);
    } else {
      RunStays(code, lim, s, k, n);
    }
  }

  // ----- Compiler correctness --------------------------------------------------------------------------

  /** From the semantics to the machine: unless a stack runs out, whatever the structured semantics
      does within some fuel the machine does. */
  lemma CompiledForward(m: Module, cs: seq<FuncCode>, base: seq<Byte>, lim: Limits, f: nat, args: seq<Word>,
                        globals: seq<Word>, fuel: nat)
    requires Compiled(m, cs, base, lim) && Callable(m, lim, f, args, globals)
    ensures var p := Linked(m, cs, base, lim);
            var s := Start(p, f, args, globals);
            Exhausts(p, s) ||
            match S.CallFunc(m, f, args, globals, fuel) {
              case Returned(vals, gs) =>
                |vals| == |m.funcs[f].sig.results| && Reaches(p, s, Config(Finished, 0, vals, [], gs), 0)
              case Trapped(kind) => Traps(p, s, kind)
              case Timeout => Lasts(p, s, fuel)
              case _ => false
            }
  {
    hide Compiled, Loaded, Exhausts, Reaches, Traps, Lasts, S.CallFunc;
    var p := Linked(m, cs, base, lim);
    CompiledLoaded(m, cs, base, lim);
    assert [] + args == args;
    SimFunc(p, cs, f, [], args, globals, [], fuel);
    var o := S.CallFunc(m, f, args, globals, fuel);
    if o.Returned? {
      assert [] + o.vals == o.vals;
    }
  }

  /** From the machine to the semantics: a run that stops, other than by running out of stack, stops
      exactly as the structured semantics says, and it never does anything undefined - it neither
      leaves the live part of the value stack nor runs into data or off the stream. */
  lemma CompiledBackward(m: Module, cs: seq<FuncCode>, base: seq<Byte>, lim: Limits, f: nat, args: seq<Word>,
                         globals: seq<Word>, n: nat)
    requires Compiled(m, cs, base, lim) && Callable(m, lim, f, args, globals)
    ensures var p := Linked(m, cs, base, lim);
            var r := Run(p.code, lim, Start(p, f, args, globals), n);
            match r.status {
              case Finished =>
                && |r.stack| == |m.funcs[f].sig.results| && r.calls == []
                && S.CallFunc(m, f, args, globals, n + 1) == S.Returned(r.stack, r.globals)
              case Trapped(kind) => S.CallFunc(m, f, args, globals, n + 1) == S.Trapped(kind)
              case Fault => false
              case _ => true
            }
  {
    hide Compiled, S.CallFunc, Run, Linked;
    var p := Linked(m, cs, base, lim);
    assert p.lim == lim && |p.offsets| == |m.funcs| by {
      LinkedShape(m, cs, base, lim);
    }
    var s := Start(p, f, args, globals);
    var r := Run(p.code, lim, s, n);
    if r.status != Running {
      CompiledForward(m, cs, base, lim, f, args, globals, n + 1);
      if Exhausts(p, s) {
        var k: nat :| Run(p.code, lim, s, k).Exhausted();
        RunUnique(p.code, lim, s, n, k);
      } else {
        match S.CallFunc(m, f, args, globals, n + 1)
        case Returned(vals, gs) =>
          var k: nat :| Run(p.code, lim, s, k) == Config(Finished, 0, vals, [], gs);
          RunUnique(p.code, lim, s, n, k);
        case Trapped(kind) =>
          var k: nat :| Run(p.code, lim, s, k).status == Machine.Trapped(kind);
          RunUnique(p.code, lim, s, n, k);
        case Timeout =>
          var k: nat :| k >= n + 1 && Run(p.code, lim, s, k).status == Running;
          RunStays(p.code, lim, s, n, k);
        case _ =>
      }
    }
  }

  lemma LinkedShape(m: Module, cs: seq<FuncCode>, base: seq<Byte>, lim: Limits)
    requires Compiled(m, cs, base, lim)
    ensures |Linked(m, cs, base, lim).offsets| == |m.funcs| == |cs|
    ensures Linked(m, cs, base, lim).lim == lim && Linked(m, cs, base, lim).m == m
  {
  }

  lemma NeverHalts(p: Prog, s: Config)
    requires forall n: nat :: Run(p.code, p.lim, s, n).status == Running
    ensures forall t: Config, k: nat :: Reaches(p, s, t, k) ==> t.status == Running
    ensures forall kind :: !Traps(p, s, kind)
  {
  }

  ghost predicate Diverges(m: Module, f: nat, args: seq<Word>, globals: seq<Word>)
    requires f < |m.funcs|
  {
    forall fuel: nat :: S.CallFunc(m, f, args, globals, fuel) == S.Timeout
  }

  ghost predicate RunsForever(p: Prog, s: Config) {
    forall n: nat :: Run(p.code, p.lim, s, n).status == Running
  }

  /** Divergence is preserved both ways. */
  lemma CompiledDivergence(m: Module, cs: seq<FuncCode>, base: seq<Byte>, lim: Limits, f: nat, args: seq<Word>,
                           globals: seq<Word>)
    requires Compiled(m, cs, base, lim) && Callable(m, lim, f, args, globals)
    ensures var p := Linked(m, cs, base, lim);
            var s := Start(p, f, args, globals);
            !Exhausts(p, s) ==> (RunsForever(p, s) <==> Diverges(m, f, args, globals))
  {
    hide Compiled, S.CallFunc, Run, Linked, Reaches, Traps, Lasts;
    LinkedShape(m, cs, base, lim);
    var p := Linked(m, cs, base, lim);
    var s := Start(p, f, args, globals);
    if !Exhausts(p, s) && RunsForever(p, s) {
      forall fuel: nat ensures S.CallFunc(m, f, args, globals, fuel) == S.Timeout {
        CompiledForward(m, cs, base, lim, f, args, globals, fuel);
        NeverHalts(p, s);
      }
    }
    if !Exhausts(p, s) && Diverges(m, f, args, globals) {
      forall n: nat ensures Run(p.code, p.lim, s, n).status == Running {
        assert S.CallFunc(m, f, args, globals, n + 1) == S.Timeout;
        CompiledBackward(m, cs, base, lim, f, args, globals, n);
        assert !Run(p.code, p.lim, s, n).Exhausted();
      }
    }
  }

  // ----- Where validation is too weak --------------------------------------------------------------------

  /** Skipping an accepted `if` without `else` leaves the operand stack at the height that the
      validator goes on with exactly when the `if` has no parameters. */
  lemma SkippedIfHeight(ctx: Ctx, tc: Checker, sig: Sig, thn: ExprList, els: ExprList)
    requires Wf(tc) && !tc.Top().unreachable && ElabExpr(ctx, tc, If(sig, thn, false, els)).Some?
    ensures PopSignature(tc, [I32]).Some?
    ensures |PopSignature(tc, [I32]).value.types| == |ElabExpr(ctx, tc, If(sig, thn, false, els)).value.tc.types|
            <==> sig.params == []
  {
    hide ElabList, OnIf, OnEnd, Entered, PopSignature;
    IfChecked(ctx, tc, sig, thn, els);
  }

  const SKIP := If(Sig([I32], []), Cons(Simple(Drop), Nil), false, Nil)
  const LAST := Cons(Simple(Const(I32, 5)), Nil)
  const UNBALANCED :=
    Module([Func(Sig([], [I32]), [], Cons(Simple(Const(I32, 7)), Cons(Simple(Const(I32, 0)), Cons(SKIP, LAST))))], [])

  /** So the validator accepts this function, although its body ends with two values instead of one. */
  lemma UnbalancedIf(fuel: nat)
    ensures ElabFunc(UNBALANCED, 0).Some? && S.CallFunc(UNBALANCED, 0, [], [], fuel) == S.Stuck
  {
    UnbalancedRun(fuel);
    UnbalancedChecked();
  }

  lemma UnbalancedRun(fuel: nat)
    ensures S.CallFunc(UNBALANCED, 0, [], [], fuel) == S.Stuck
  {
    var st := S.State([], [7, 0], []);
    var after := S.Normal(S.State([], [7, 5], []));
    assert S.ExecExpr(UNBALANCED, SKIP, [1], st, fuel) == S.Normal(S.State([], [7], []));
    assert S.Exec(UNBALANCED, LAST, [1], S.State([], [7], []), fuel) == after;
    assert S.Exec(UNBALANCED, Cons(SKIP, LAST), [1], st, fuel) == after;
    var zero := Simple(Const(I32, 0));
    assert S.ExecExpr(UNBALANCED, zero, [1], S.State([], [7], []), fuel) == S.Normal(st);
    assert S.Exec(UNBALANCED, Cons(zero, Cons(SKIP, LAST)), [1], S.State([], [7], []), fuel) == after;
    assert S.Exec(UNBALANCED, UNBALANCED.funcs[0].body, [1], S.State([], [], []), fuel) == after;
    LocalCountNone();
    assert [] + Zeros(0) == [];
  }

  lemma PopOne(tc: Checker, rest: seq<Type>, t: Type)
    requires tc.types == rest + [t] && tc.labels != [] && tc.Top().limit <= |rest|
    ensures PopSignature(tc, [t]) == Some(tc.(types := rest))
  {
    assert tc.types[..|tc.types| - 1] == rest;
  }

  lemma UnbalancedSkip(ctx: Ctx, l: Label)
    requires l.limit == 0
    ensures ElabExpr(ctx, Checker([I32, I32], [l]), SKIP).Some?
    ensures ElabExpr(ctx, Checker([I32, I32], [l]), SKIP).value.tc == Checker([], [l])
  {
    var inner := Label(IfLabel, [I32], [], 0, false);
    PopOne(Checker([I32, I32], [l]), [I32], I32);
    PopOne(Checker([I32], [l]), [], I32);
    assert [l] + [inner] == [l, inner] && [l, inner][..1] == [l] && [] + [I32] == [I32];
    assert OnIf(Checker([I32, I32], [l]), Sig([I32], [])) == Some(Checker([I32], [l, inner]));
    assert DropTypes(Checker([I32], [l, inner]), 1) == Some(Checker([], [l, inner]));
    var none: seq<Type> := [];
    assert none[..0] == none && none + [] == none;
    assert PopSignature(Checker(none, [l, inner]), none) == Some(Checker(none, [l, inner]));
    assert OnEnd(Checker([], [l, inner])) == Some(Checker([], [l]));
    assert ElabList(ctx, Checker([I32], [l, inner]), SKIP.thn).Some?;
    assert ElabList(ctx, Checker([I32], [l, inner]), SKIP.thn).value.tc == Checker([], [l, inner]);
  }

  lemma ConstList(ctx: Ctx, types: seq<Type>, l: Label, v: Word, rest: ExprList)
    requires ElabList(ctx, Checker(types + [I32], [l]), rest).Some?
    ensures var r := ElabList(ctx, Checker(types, [l]), Cons(Simple(Const(I32, v)), rest));
            r.Some? && r.value.tc == ElabList(ctx, Checker(types + [I32], [l]), rest).value.tc
  {
    hide OpInstrs;
  }

  lemma SkipList(ctx: Ctx, l: Label, rest: ExprList)
    requires l.limit == 0 && ElabList(ctx, Checker([], [l]), rest).Some?
    ensures var r := ElabList(ctx, Checker([I32, I32], [l]), Cons(SKIP, rest));
            r.Some? && r.value.tc == ElabList(ctx, Checker([], [l]), rest).value.tc
  {
    hide ElabExpr;
    UnbalancedSkip(ctx, l);
  }

  lemma UnbalancedChecked()
    ensures ElabFunc(UNBALANCED, 0).Some?
  {
    hide ElabList, ElabExpr, EndFunction, CtxOf, ReturnInstrs;
    var ctx := CtxOf(UNBALANCED, 0);
    var l := Label(FuncLabel, [], [I32], 0, false);
    var none: seq<Type> := [];
    assert none + [I32] == [I32] && [I32] + [I32] == [I32, I32];
    NilList(ctx, Checker([I32], [l]));
    ConstList(ctx, [], l, 5, Nil);
    SkipList(ctx, l, LAST);
    ConstList(ctx, [I32], l, 0, Cons(SKIP, LAST));
    ConstList(ctx, [], l, 7, Cons(Simple(Const(I32, 0)), Cons(SKIP, LAST)));
    UnbalancedEnd(l);
  }

  lemma NilList(ctx: Ctx, tc: Checker)
    ensures ElabList(ctx, tc, Nil) == Some(Elab(CNil, tc))
  {
  }

  lemma UnbalancedEnd(l: Label)
    requires l == Label(FuncLabel, [], [I32], 0, false)
    ensures EndFunction(Checker([I32], [l])).Some?
  {
    PopOne(Checker([I32], [l]), [], I32);
  }
}
