/** What a written function refers to: its own locals, labels it numbered itself, globals of the module,
    and stack variables of a type that C has. */
module CScopes {
  import opened Syntax
  import opened TypeChecker
  import opened Elaborate
  import opened CMachine
  import opened CLowering
  import opened CStatics
  import opened CCorrectness
  import opened CWriterClass
  import C = Correctness

  datatype Scope = Scope(locals: nat, labels: nat, globals: nat, funcs: nat)

  predicate VarIn(s: Scope, v: CVar) {
    match v
    case StackVar(_, ty) => ty != Any
    case LocalVar(x) => x < s.locals
    case GlobalVar(g) => g < s.globals
  }

  predicate VarsIn(s: Scope, vs: seq<CVar>) {
    forall i :: 0 <= i < |vs| ==> VarIn(s, vs[i])
  }

  predicate ValueIn(s: Scope, e: CExpr) {
    match e
    case Value(v) => VarIn(s, v)
    case Literal(_) => true
    case Infix(_, lhs, rhs) => VarIn(s, lhs) && VarIn(s, rhs)
    case Choose(cond, yes, no) => VarIn(s, cond) && VarIn(s, yes) && VarIn(s, no)
  }

  predicate StmtIn(s: Scope, stmt: CStmt) {
    match stmt
    case Assign(dst, e) => VarIn(s, dst) && ValueIn(s, e)
    case Goto(id) => id < s.labels
    case LabelDecl(id) => id < s.labels
    case IfStmt(cond, thn, els) => VarIn(s, cond) && CodeIn(s, thn) && CodeIn(s, els)
    case Switch(key, cases, default) => VarIn(s, key) && CodeIn(s, default) && forall k :: 0 <= k < |cases|
                                                                                 ==> CodeIn(s, cases[k].code)
    case CallStmt(into, f, args) => f < s.funcs && (into.Some? ==> VarIn(s, into.value)) && VarsIn(s, args)
    case TrapStmt => true
  }

  predicate CodeIn(s: Scope, code: seq<CStmt>) {
    forall i :: 0 <= i < |code| ==> StmtIn(s, code[i])
  }

  function ScopeOf(ctx: Ctx, n: nat): Scope {
    Scope(|ctx.locals|, n, |ctx.globals|, |ctx.funcs|)
  }

  /** Reachable, validated code whose labels have numbers below `n`. */
  predicate InScope(ctx: Ctx, tc: Checker, labels: seq<CLabel>, n: nat) {
    && ConcreteCtx(ctx) && Live(tc) && tc.labels[0].kind == FuncLabel && Labelled(tc, labels)
    && forall i :: 0 <= i < |labels| ==> labels[i].id < n
  }

  lemma OperandIn(ctx: Ctx, types: seq<Type>, k: nat, n: nat)
    requires Concrete(types) && k < |types|
    ensures VarIn(ScopeOf(ctx, n), Operand(types, k))
  {
  }

  lemma GotoIn(ctx: Ctx, tc: Checker, labels: seq<CLabel>, d: nat, n: nat)
    requires InScope(ctx, tc, labels, n) && d < |tc.labels| && CheckSignature(tc, tc.LabelAt(d).BrTypes())
    ensures CodeIn(ScopeOf(ctx, n), GotoCode(tc.types, labels, d))
  {
    hide CheckSignature, Nested;
    BranchRoom(tc, labels, d);
    var l := labels[|labels| - 1 - d];
    assert PlainLabel(tc.labels[|labels| - 1 - d]);
    if l.HasValue() {
      OperandIn(ctx, tc.types, 0, n);
    }
  }

  lemma OpIn(ctx: Ctx, tc: Checker, op: Op, labels: seq<CLabel>, n: nat)
    requires InScope(ctx, tc, labels, n) && ConcreteExpr(Simple(op)) && OnOp(ctx, tc, op).Some?
    ensures CodeIn(ScopeOf(ctx, n), LowerOp(ctx, tc.types, op).0)
  {
    hide OnOp, Nested, Labelled;
    OpRoom(ctx, tc, op);
  }

  lemma CallIn(ctx: Ctx, tc: Checker, f: nat, labels: seq<CLabel>, n: nat)
    requires InScope(ctx, tc, labels, n) && OnCall(ctx, tc, f).Some?
    ensures CodeIn(ScopeOf(ctx, n), LowerCall(ctx, tc.types, f).0)
  {
    hide PopPush, Nested, Labelled;
    CallRoom(ctx, tc, f);
  }

  lemma PoppedScoped(ctx: Ctx, tc: Checker, labels: seq<CLabel>, n: nat)
    requires InScope(ctx, tc, labels, n) && PopSignature(tc, [I32]).Some? && Live(Popped(tc))
    ensures InScope(ctx, Popped(tc), labels, n) && 1 <= |tc.types| && VarIn(ScopeOf(ctx, n), Operand(tc.types, 0))
    ensures Popped(tc).types == DropN(tc.types, 1)
  {
    hide Nested, PopSignature;
    KeyRoom(tc, labels);
  }

  lemma BrTableIn(ctx: Ctx, tc: Checker, targets: seq<nat>, default: nat, labels: seq<CLabel>, n: nat)
    requires InScope(ctx, tc, labels, n) && ElabBrTable(tc, targets, default).Some?
    ensures CodeIn(ScopeOf(ctx, n), LowerExpr(ctx, BrTable(targets, default), tc.types, labels, 0).code)
  {
    hide Live, Labelled, ConcreteCtx, CheckSignature, GotoCode, ElabBrTable, CodeIn;
    var s, types0 := ScopeOf(ctx, n), DropN(tc.types, 1);
    TableChecked(tc, targets, default, |targets|);
    PoppedScoped(ctx, tc, labels, n);
    GotoIn(ctx, Popped(tc), labels, default, n);
    forall k | 0 <= k < |targets|
      ensures CodeIn(s, Cases(types0, labels, targets)[k].code)
    {
      TableChecked(tc, targets, default, k);
      GotoIn(ctx, Popped(tc), labels, targets[k], n);
    }
    OneIn(s, Switch(Operand(tc.types, 0), Cases(types0, labels, targets), GotoCode(types0, labels, default)));
  }

  lemma OneIn(s: Scope, stmt: CStmt)
    ensures CodeIn(s, [stmt]) <==> StmtIn(s, stmt)
  {
    hide StmtIn;
    assert [stmt][0] == stmt;
  }

  lemma AppendIn(s: Scope, a: seq<CStmt>, b: seq<CStmt>)
    ensures CodeIn(s, a + b) <==> CodeIn(s, a) && CodeIn(s, b)
  {
    hide StmtIn;
    forall i | 0 <= i < |a| ensures (a + b)[i] == a[i] {
    }
    forall i | 0 <= i < |b| ensures (a + b)[|a| + i] == b[i] {
    }
  }

  lemma DeclIn(s: Scope, code: seq<CStmt>, id: nat)
    requires id < s.labels
    ensures CodeIn(s, Decl(code, id))
  {
    hide UsesList;
  }

  lemma {:induction false} ListIn(ctx: Ctx, tc: Checker, es: ExprList, labels: seq<CLabel>, next: nat, n: nat)
    requires InScope(ctx, tc, labels, n) && ElabList(ctx, tc, es).Some? && NarrowList(es) && ConcreteList(es)
    requires LowerList(ctx, es, tc.types, labels, next).next <= n
    ensures CodeIn(ScopeOf(ctx, n), LowerList(ctx, es, tc.types, labels, next).code)
    decreases es, 0
  {
    hide ElabExpr, LowerExpr, NarrowExpr, ConcreteExpr, Live, Labelled, ConcreteCtx, IsJump, CodeIn;
    match es
    case Nil => EmptyIn(ScopeOf(ctx, n));
    case Cons(e, rest) =>
      var h := LowerExpr(ctx, e, tc.types, labels, next);
      if IsJump(e) {
        ExprIn(ctx, tc, e, labels, next, n);
      } else {
        var tc1 := ElabExpr(ctx, tc, e).value.tc;
        TypesExpr(ctx, tc, e, labels, next);
        LowerNext(ctx, rest, h.types, labels, h.next);
        ExprIn(ctx, tc, e, labels, next, n);
        OnLabels(tc, tc1, labels);
        ListIn(ctx, tc1, rest, labels, h.next, n);
        AppendIn(ScopeOf(ctx, n), h.code, LowerList(ctx, rest, h.types, labels, h.next).code);
      }
  }

  lemma EmptyIn(s: Scope)
    ensures CodeIn(s, [])
  {
  }

  lemma {:induction false} ExprIn(ctx: Ctx, tc: Checker, e: Expr, labels: seq<CLabel>, next: nat, n: nat)
    requires InScope(ctx, tc, labels, n) && ElabExpr(ctx, tc, e).Some? && NarrowExpr(e) && ConcreteExpr(e)
    requires LowerExpr(ctx, e, tc.types, labels, next).next <= n
    ensures CodeIn(ScopeOf(ctx, n), LowerExpr(ctx, e, tc.types, labels, next).code)
    decreases e, 0
  {
    hide InScope, CodeIn, LowerList, ElabList, ElabBody, ElabThen, LowerOp, LowerCall, OnOp, OnIf, OnBrIf, OnCall;
    hide EnterLabel, GotoCode, PopSignature, Decl, ElabBrTable, CheckSignature, OnReturn;
    match e
    case Simple(op) => OpIn(ctx, tc, op, labels, n);
    case Block(sig, body) => LabelIn(ctx, tc, BlockLabel, sig, body, labels, next, n);
    case Loop(sig, body) => LabelIn(ctx, tc, LoopLabel, sig, body, labels, next, n);
    case If(sig, thn, hasElse, els) => IfIn(ctx, tc, sig, thn, hasElse, els, labels, next, n);
    case Br(d) => GotoIn(ctx, tc, labels, d, n);
    case BrIf(d) => BrIfIn(ctx, tc, d, labels, n);
    case BrTable(targets, default) => BrTableIn(ctx, tc, targets, default, labels, n);
    case Return => ReturnIn(ctx, tc, labels, n);
    case Call(f) => CallIn(ctx, tc, f, labels, n);
    case Unreachable => OneIn(ScopeOf(ctx, n), TrapStmt);
  }

  lemma BrIfIn(ctx: Ctx, tc: Checker, d: nat, labels: seq<CLabel>, n: nat)
    requires InScope(ctx, tc, labels, n) && OnBrIf(tc, d).Some?
    ensures CodeIn(ScopeOf(ctx, n), LowerExpr(ctx, BrIf(d), tc.types, labels, 0).code)
  {
    hide Live, Labelled, ConcreteCtx, CheckSignature, GotoCode, OnBrIf, CodeIn;
    BrIfChecked(tc, d);
    PoppedScoped(ctx, tc, labels, n);
    GotoIn(ctx, Popped(tc), labels, d, n);
    EmptyIn(ScopeOf(ctx, n));
    OneIn(ScopeOf(ctx, n), IfStmt(Operand(tc.types, 0), GotoCode(DropN(tc.types, 1), labels, d), []));
  }

  lemma ReturnIn(ctx: Ctx, tc: Checker, labels: seq<CLabel>, n: nat)
    requires InScope(ctx, tc, labels, n) && OnReturn(tc).Some?
    ensures CodeIn(ScopeOf(ctx, n), GotoCode(tc.types, labels, |labels| - 1))
  {
    hide Live, Labelled, ConcreteCtx, CheckSignature, GotoCode, CodeIn, OnReturn;
    ReturnRoom(tc, labels);
    GotoIn(ctx, tc, labels, |labels| - 1, n);
  }

  /** One more label, with the next number. */
  lemma InsideScoped(ctx: Ctx, tc: Checker, tc1: Checker, kind: Kind, sig: Sig, labels: seq<CLabel>, next: nat, n: nat)
    requires InScope(ctx, tc, labels, n) && next < n && Live(tc1)
    requires Entered(tc, tc1, kind, sig) && tc1.types == tc.types && tc1.Top().limit == |tc.types|
    ensures InScope(ctx, tc1, labels + [CLabel(kind == LoopLabel, sig.results, |tc.types|, next)], n)
  {
    hide Nested, ConcreteCtx;
    forall i | 0 <= i < |tc.labels| ensures tc1.labels[i] == tc.labels[i] {
      assert tc1.labels[i] == tc1.labels[..|tc.labels|][i];
    }
  }

  lemma {:induction false} LabelIn(ctx: Ctx, tc: Checker, kind: Kind, sig: Sig, body: ExprList, labels: seq<CLabel>,
                                   next: nat, n: nat)
    requires kind == BlockLabel || kind == LoopLabel
    requires InScope(ctx, tc, labels, n) && NarrowSig(sig) && Concrete(sig.results) && NarrowList(body)
             && ConcreteList(body)
    requires ElabExpr(ctx, tc, C.LabelExpr(kind, sig, body)).Some?
    requires LowerExpr(ctx, C.LabelExpr(kind, sig, body), tc.types, labels, next).next <= n
    ensures CodeIn(ScopeOf(ctx, n), LowerExpr(ctx, C.LabelExpr(kind, sig, body), tc.types, labels, next).code)
    decreases body, 1
  {
    hide Live, Labelled, ConcreteCtx, ElabExpr, ElabList, LowerList, EnterLabel, Decl, CodeIn, Entered;
    var s := ScopeOf(ctx, n);
    if kind == LoopLabel && body == Nil {
      EmptyIn(s);
    } else {
      LabelInside(ctx, tc, kind, sig, body);
      var tc1 := EnterLabel(tc, kind, sig).value;
      var inner := labels + [CLabel(kind == LoopLabel, sig.results, |tc.types|, next)];
      LowerNext(ctx, body, tc.types, inner, next + 1);
      InsideScoped(ctx, tc, tc1, kind, sig, labels, next, n);
      ListIn(ctx, tc1, body, inner, next + 1, n);
      var code := LowerList(ctx, body, tc.types, inner, next + 1).code;
      DeclIn(s, code, next);
      OneIn(s, LabelDecl(next));
      AppendIn(s, code, Decl(code, next));
      AppendIn(s, [LabelDecl(next)], code);
    }
  }

  lemma {:induction false} IfIn(ctx: Ctx, tc: Checker, sig: Sig, thn: ExprList, hasElse: bool, els: ExprList,
                                labels: seq<CLabel>, next: nat, n: nat)
    requires var e := If(sig, thn, hasElse, els);
             && InScope(ctx, tc, labels, n) && NarrowExpr(e) && ConcreteExpr(e) && ElabExpr(ctx, tc, e).Some?
             && LowerExpr(ctx, e, tc.types, labels, next).next <= n
    ensures CodeIn(ScopeOf(ctx, n), LowerExpr(ctx, If(sig, thn, hasElse, els), tc.types, labels, next).code)
    decreases If(sig, thn, hasElse, els), -1
  {
    hide Live, Labelled, ConcreteCtx, ElabExpr, ElabList, LowerList, OnIf, OnElse, Decl, CodeIn, Entered, PopSignature,
         Reset;
    var s := ScopeOf(ctx, n);
    IfRoom(ctx, tc, sig, thn, hasElse, els);
    var tc0, tc1 := Popped(tc), OnIf(tc, sig).value;
    PoppedScoped(ctx, tc, labels, n);
    var inner := labels + [CLabel(false, sig.results, |tc0.types|, next)];
    var t := LowerList(ctx, thn, tc0.types, inner, next + 1);
    LowerNext(ctx, thn, tc0.types, inner, next + 1);
    var elsTypes := Reset(t.types, |tc0.types|);
    var f := if hasElse then LowerList(ctx, els, elsTypes, inner, t.next).code else [];
    LowerNext(ctx, els, elsTypes, inner, t.next);
    InsideScoped(ctx, tc0, tc1, IfLabel, sig, labels, next, n);
    ListIn(ctx, tc1, thn, inner, next + 1, n);
    if hasElse {
      ElsIn(ctx, tc, sig, thn, els, labels, next, n);
    } else {
      EmptyIn(s);
    }
    var stmt := IfStmt(Operand(tc.types, 0), t.code, f);
    OneIn(s, stmt);
    DeclIn(s, [stmt], next);
    AppendIn(s, [stmt], Decl([stmt], next));
  }

  /** The false branch starts on the stack that the true one started on. */
  lemma {:induction false} ElsIn(ctx: Ctx, tc: Checker, sig: Sig, thn: ExprList, els: ExprList,
                                 labels: seq<CLabel>, next: nat, n: nat)
    requires var e := If(sig, thn, true, els);
             && InScope(ctx, tc, labels, n) && NarrowExpr(e) && ConcreteExpr(e) && ElabExpr(ctx, tc, e).Some?
             && LowerExpr(ctx, e, tc.types, labels, next).next <= n && next < n
    ensures var types0 := DropN(tc.types, 1);
            var inner := labels + [CLabel(false, sig.results, |types0|, next)];
            var t := LowerList(ctx, thn, types0, inner, next + 1);
            CodeIn(ScopeOf(ctx, n), LowerList(ctx, els, Reset(t.types, |types0|), inner, t.next).code)
    decreases els, 1
  {
    hide Live, Labelled, ConcreteCtx, ElabExpr, ElabList, LowerList, OnIf, OnElse, Decl, CodeIn, Entered, PopSignature,
         Reset;
    hide Above;
    IfRoom(ctx, tc, sig, thn, true, els);
    var tc0, tc1 := Popped(tc), OnIf(tc, sig).value;
    PoppedScoped(ctx, tc, labels, n);
    ElseStack(ctx, tc, sig, thn, els);
    var tc3 := OnElse(ElabList(ctx, tc1, thn).value.tc).value;
    var inner := labels + [CLabel(false, sig.results, |tc0.types|, next)];
    var t := LowerList(ctx, thn, tc0.types, inner, next + 1);
    TypesList(ctx, tc1, thn, inner, next + 1);
    ResetAbove(tc1, t.types, tc0.types);
    InsideScoped(ctx, tc0, tc3, ElseLabel, sig, labels, next, n);
    ListIn(ctx, tc3, els, inner, t.next, n);
  }

  /** How many labels a function has, its own included. */
  function LabelCount(m: Module, f: nat): nat
    requires f < |m.funcs|
  {
    LowerList(CtxOf(m, f), m.funcs[f].body, [], [CLabel(false, m.funcs[f].sig.results, 0, 0)], 1).next
  }

  lemma WrittenInScope(m: Module, f: nat)
    requires f < |m.funcs| && ConcreteModule(m) && Narrow(m) && ElabFunc(m, f).Some?
    ensures CodeIn(Scope(|LowerFunc(m, f).locals|, LabelCount(m, f), |m.globals|, |m.funcs|), LowerFunc(m, f).body)
  {
    hide ElabFunc, ConcreteModule, Narrow, LowerList, ElabList, NarrowList, ConcreteList, ConcreteCtx, CodeIn, Decl;
    FuncInside(m, f);
    var fn, ctx, n := m.funcs[f], CtxOf(m, f), LabelCount(m, f);
    var tc := BeginFunction(fn.sig.results);
    var labels := [CLabel(false, fn.sig.results, 0, 0)];
    LowerNext(ctx, fn.body, [], labels, 1);
    ListIn(ctx, tc, fn.body, labels, 1, n);
    var code := LowerList(ctx, fn.body, [], labels, 1).code;
    DeclIn(ScopeOf(ctx, n), code, 0);
    AppendIn(ScopeOf(ctx, n), code, Decl(code, 0));
  }
}
