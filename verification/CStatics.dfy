/** Static facts about the lowering: its type stack is the validator's, and its labels are fresh. */
module CStatics {
  import opened Syntax
  import opened TypeChecker
  import opened Elaborate
  import opened CMachine
  import opened CLowering
  import opened CSimulation
  import C = Correctness

  // ----- Labels ------------------------------------------------------------------------------------------

  lemma {:induction false} UsesAppend(a: seq<CStmt>, b: seq<CStmt>, id: nat)
    ensures UsesList(a + b, id) <==> UsesList(a, id) || UsesList(b, id)
    decreases |a|
  {
    hide Uses;
    if a == [] {
      assert a + b == b;
    } else {
      assert (a + b)[1..] == a[1..] + b;
      UsesAppend(a[1..], b, id);
    }
  }

  /** The labels that `code` itself declares, outside braces, are in `[lo, hi)`. */
  predicate DeclaresIn(code: seq<CStmt>, lo: nat, hi: nat) {
    lo <= hi && forall k :: 0 <= k < |code| && code[k].LabelDecl? ==> lo <= code[k].id < hi
  }

  lemma DeclaresAppend(a: seq<CStmt>, b: seq<CStmt>, lo: nat, mid: nat, mid': nat, hi: nat)
    requires DeclaresIn(a, lo, mid) && DeclaresIn(b, mid', hi) && mid <= hi && lo <= mid'
    ensures DeclaresIn(a + b, lo, hi)
  {
  }

  lemma GotoDeclares(types: seq<Type>, labels: seq<CLabel>, d: int, next: nat)
    ensures DeclaresIn(GotoCode(types, labels, d), next, next)
  {
  }

  lemma {:induction false} ListDeclares(ctx: Ctx, es: ExprList, types: seq<Type>, labels: seq<CLabel>, next: nat)
    ensures var r := LowerList(ctx, es, types, labels, next); DeclaresIn(r.code, next, r.next)
    decreases es
  {
    hide LowerExpr, DeclaresIn;
    match es
    case Nil => NoneDeclared(next);
    case Cons(e, rest) =>
      var h := LowerExpr(ctx, e, types, labels, next);
      ExprDeclares(ctx, e, types, labels, next);
      if !IsJump(e) {
        var t := LowerList(ctx, rest, h.types, labels, h.next);
        ListDeclares(ctx, rest, h.types, labels, h.next);
        DeclaresBound(h.code, next, h.next);
        DeclaresBound(t.code, h.next, t.next);
        DeclaresAppend(h.code, t.code, next, h.next, h.next, t.next);
      }
  }

  lemma NoneDeclared(next: nat)
    ensures DeclaresIn([], next, next)
  {
  }

  lemma DeclaresBound(code: seq<CStmt>, lo: nat, hi: nat)
    requires DeclaresIn(code, lo, hi)
    ensures lo <= hi
  {
  }

  lemma {:induction false} ExprDeclares(ctx: Ctx, e: Expr, types: seq<Type>, labels: seq<CLabel>, next: nat)
    ensures var r := LowerExpr(ctx, e, types, labels, next); DeclaresIn(r.code, next, r.next)
    decreases e
  {
    hide LowerList, LowerOp, LowerCall, GotoCode, UsesList;
    match e
    case Simple(op) => OpDeclares(ctx, types, op);
    case Block(sig, body) =>
      ListDeclares(ctx, body, types, labels + [CLabel(false, sig.results, |types|, next)], next + 1);
    case Loop(sig, body) =>
      if body != Nil {
        ListDeclares(ctx, body, types, labels + [CLabel(true, sig.results, |types|, next)], next + 1);
      }
    case If(sig, thn, hasElse, els) =>
      var types0 := DropN(types, 1);
      var labels' := labels + [CLabel(false, sig.results, |types0|, next)];
      ListDeclares(ctx, thn, types0, labels', next + 1);
      var t := LowerList(ctx, thn, types0, labels', next + 1);
      if hasElse {
        ListDeclares(ctx, els, Reset(t.types, |types0|), labels', t.next);
      }
    case Br(d) => GotoDeclares(types, labels, d, next);
    case Return => GotoDeclares(types, labels, |labels| - 1, next);
    case Call(f) => CallDeclares(ctx, types, f);
    case _ =>
  }

  lemma OpDeclares(ctx: Ctx, types: seq<Type>, op: Op)
    ensures forall k :: 0 <= k < |LowerOp(ctx, types, op).0| ==> !LowerOp(ctx, types, op).0[k].LabelDecl?
  {
  }

  lemma CallDeclares(ctx: Ctx, types: seq<Type>, f: nat)
    ensures forall k :: 0 <= k < |LowerCall(ctx, types, f).0| ==> !LowerCall(ctx, types, f).0[k].LabelDecl?
  {
  }

  // ----- Types -------------------------------------------------------------------------------------------------

  predicate ConcreteCtx(ctx: Ctx) {
    && Concrete(ctx.locals)
    && (forall g :: 0 <= g < |ctx.globals| ==> ctx.globals[g].ty != Any)
    && forall f :: 0 <= f < |ctx.funcs| ==> Concrete(ctx.funcs[f].params) && Concrete(ctx.funcs[f].results)
  }

  lemma InFuncConcrete(p: CProg, f: nat)
    requires InFunc(p, f)
    ensures ConcreteCtx(CtxOf(p.m, f))
  {
    forall g | 0 <= g < |p.m.funcs| ensures ConcreteFunc(p.m.funcs[g]) {
    }
  }

  predicate PlainLabel(l: Label) {
    l.params == [] && |l.results| <= 1 && Concrete(l.results)
  }

  /** Reachable code with concrete types on its stack, inside labels of WebAssembly 1.0. */
  predicate Live(tc: Checker) {
    Wf(tc) && !tc.Top().unreachable && Concrete(tc.types) && forall i :: 0 <= i < |tc.labels|
                                                               ==> PlainLabel(tc.labels[i])
  }

  lemma LiveInside(tc: Checker, tc1: Checker, kind: Kind, sig: Sig)
    requires Live(tc) && Entered(tc, tc1, kind, sig) && NarrowSig(sig) && Concrete(sig.results)
    requires tc1.types == tc.types
    ensures Live(tc1)
  {
    hide Nested;
    forall i | 0 <= i < |tc1.labels| ensures PlainLabel(tc1.labels[i]) {
      if i < |tc.labels| {
        assert tc1.labels[i] == tc1.labels[..|tc.labels|][i];
      }
    }
  }

  /** A block or loop without parameters: its body starts on the stack it is in, and leaves the results
      on top of it. */
  lemma LabelStack(ctx: Ctx, tc: Checker, kind: Kind, sig: Sig, body: ExprList)
    requires Live(tc) && NarrowSig(sig) && EnterLabel(tc, kind, sig).Some? && Concrete(sig.results)
    requires kind != IfLabel
    requires ElabBody(ctx, EnterLabel(tc, kind, sig), body).Some?
    ensures var tc1 := EnterLabel(tc, kind, sig).value;
            && Entered(tc, tc1, kind, sig) && tc1.types == tc.types && tc1.Top().limit == |tc.types| && Live(tc1)
            && ElabList(ctx, tc1, body).Some?
            && var tc2 := ElabList(ctx, tc1, body).value.tc;
               && TypeChecker.Frame(tc1, tc2) && OnEnd(tc2).Some?
               && var tc3 := OnEnd(tc2).value;
                  && ElabBody(ctx, EnterLabel(tc, kind, sig), body).value.tc == tc3
                  && C.Exits(tc, tc1, tc2, tc3, kind, sig)
                  && tc3.types == tc.types + sig.results && Live(tc3)
                  && (Concrete(tc2.types) && !tc2.Top().unreachable ==> tc2.types == tc3.types)
  {
    hide Nested, ElabList, OnEnd, EnterLabel;
    C.ElabBodyParts(ctx, EnterLabel(tc, kind, sig), body);
    C.EnterHeight(tc, kind, sig);
    var tc1 := EnterLabel(tc, kind, sig).value;
    ListFrame(ctx, tc1, body);
    assert tc1.types == tc.types;
    LiveInside(tc, tc1, kind, sig);
    var tc2 := ElabList(ctx, tc1, body).value.tc;
    C.EndExits(tc, tc1, tc2, OnEnd(tc2).value, kind, sig);
    LeftTypes(tc, tc1, tc2, OnEnd(tc2).value, kind, sig);
  }

  /** The types behind a label. */
  lemma LeftTypes(tc: Checker, tc1: Checker, tc2: Checker, tc3: Checker, kind: Kind, sig: Sig)
    requires Entered(tc, tc1, kind, sig) && TypeChecker.Frame(tc1, tc2) && OnEnd(tc2) == Some(tc3)
    requires tc1.types == tc.types && tc1.Top().limit == |tc.types|
    ensures tc3.types == tc.types + sig.results
    ensures Concrete(tc2.types) && Concrete(sig.results) && !tc2.Top().unreachable ==> tc2.types == tc3.types
  {
    hide Nested, OnEnd;
    OnEndLeft(tc2);
    assert tc2.types[..|tc.types|] == tc1.types[..|tc.types|] == tc.types;
    if Concrete(tc2.types) && Concrete(sig.results) && !tc2.Top().unreachable {
      EndTypes(tc2, tc3);
    }
  }

  lemma EndTypes(tc2: Checker, tc3: Checker)
    requires Wf(tc2) && !tc2.Top().unreachable && OnEnd(tc2) == Some(tc3)
    requires Concrete(tc2.types) && Concrete(tc2.Top().results)
    ensures tc2.types == tc3.types
  {
    hide Nested;
    PopConcrete(tc2, tc2.Top().results);
  }

  /** An unconditional jump somewhere in the list, outside nested lists. */
  predicate HasJump(es: ExprList) {
    es.Cons? && (IsJump(es.head) || HasJump(es.tail))
  }

  /** The writer's type stack is intact below the innermost label. */
  predicate Above(tc: Checker, types: seq<Type>) {
    Wf(tc) && tc.Top().limit <= |types| && types[..tc.Top().limit] == tc.types[..tc.Top().limit]
  }

  /** Control goes on, and the writer's type stack is the validator's. */
  predicate GoesOn(tc: Checker, after: Checker, types: seq<Type>) {
    Live(after) && after.labels == tc.labels && types == after.types
  }

  lemma {:induction false} TypesList(ctx: Ctx, tc: Checker, es: ExprList, labels: seq<CLabel>, next: nat)
    requires ConcreteCtx(ctx) && Live(tc) && NarrowList(es) && ConcreteList(es)
    requires ElabList(ctx, tc, es).Some?
    ensures var r := LowerList(ctx, es, tc.types, labels, next);
            Above(tc, r.types) && (!HasJump(es) ==> GoesOn(tc, ElabList(ctx, tc, es).value.tc, r.types))
    decreases es, 0
  {
    hide ElabExpr, LowerExpr, NarrowExpr, ConcreteExpr, Nested, ConcreteCtx, IsJump;
    match es
    case Nil =>
    case Cons(e, rest) =>
      TypesExpr(ctx, tc, e, labels, next);
      var h := ElabExpr(ctx, tc, e).value;
      if !IsJump(e) {
        TypesList(ctx, h.tc, rest, labels, LowerExpr(ctx, e, tc.types, labels, next).next);
        ExprFrame(ctx, tc, e);
      }
  }

  lemma {:induction false} TypesExpr(ctx: Ctx, tc: Checker, e: Expr, labels: seq<CLabel>, next: nat)
    requires ConcreteCtx(ctx) && Live(tc) && NarrowExpr(e) && ConcreteExpr(e)
    requires ElabExpr(ctx, tc, e).Some?
    ensures var r := LowerExpr(ctx, e, tc.types, labels, next);
            Above(tc, r.types) && (!IsJump(e) ==> GoesOn(tc, ElabExpr(ctx, tc, e).value.tc, r.types))
    decreases e, 0
  {
    hide LowerList, ElabList, ElabBody, ElabThen, LowerOp, LowerCall, OnOp, OnIf, OnBrIf, OnCall, OnReturn, EnterLabel;
    hide Nested, GotoCode, ConcreteCtx, PopSignature, Decl;
    match e
    case Simple(op) => TypesOp(ctx, tc, op);
    case Block(sig, body) => TypesLabel(ctx, tc, BlockLabel, sig, body, labels, next);
    case Loop(sig, body) => TypesLabel(ctx, tc, LoopLabel, sig, body, labels, next);
    case If(sig, thn, hasElse, els) => TypesIf(ctx, tc, sig, thn, hasElse, els, labels, next);
    case BrIf(d) => TypesBrIf(tc, d);
    case BrTable(targets, default) =>
      assert PopSignature(tc, [I32]).Some?;
      PopConcrete(tc, [I32]);
    case Call(f) => TypesCall(ctx, tc, f);
    case _ =>
  }

  lemma TypesOp(ctx: Ctx, tc: Checker, op: Op)
    requires ConcreteCtx(ctx) && Live(tc) && ConcreteExpr(Simple(op)) && OnOp(ctx, tc, op).Some?
    ensures var types := LowerOp(ctx, tc.types, op).1;
            Above(tc, types) && GoesOn(tc, OnOp(ctx, tc, op).value, types)
  {
    hide Nested, PopSignature, LowerBinary, OnSelect;
    match op
    case Binary(bin) =>
      BinaryLowered(ctx, tc, bin);
      OpFrame(ctx, tc, op);
      BinaryLabels(tc, bin);
    case Select => TypesSelect(tc);
    case _ => TypesVariable(ctx, tc, op);
  }

  lemma TypesVariable(ctx: Ctx, tc: Checker, op: Op)
    requires ConcreteCtx(ctx) && Live(tc) && ConcreteExpr(Simple(op)) && OnOp(ctx, tc, op).Some?
    requires !op.Binary? && !op.Select?
    ensures var types := LowerOp(ctx, tc.types, op).1;
            Above(tc, types) && GoesOn(tc, OnOp(ctx, tc, op).value, types)
  {
    hide Nested, PopSignature;
    match op
    case LocalSet(x) => PopConcrete(tc, [ctx.locals[x]]);
    case LocalTee(x) => PopConcrete(tc, [ctx.locals[x]]);
    case GlobalSet(g) => PopConcrete(tc, [ctx.globals[g].ty]);
    case _ =>
  }

  lemma BinaryLabels(tc: Checker, bin: BinOp)
    requires Live(tc) && PopPush(tc, [BinParam(bin), BinParam(bin)], [BinResult(bin)]).Some?
    ensures PopPush(tc, [BinParam(bin), BinParam(bin)], [BinResult(bin)]).value.labels == tc.labels
    ensures tc.Top().limit + 2 <= |tc.types|
  {
    hide Nested, PopSignature;
    PopConcrete(tc, [BinParam(bin), BinParam(bin)]);
  }

  lemma TypesSelect(tc: Checker)
    requires Live(tc) && OnSelect(tc).Some?
    ensures var types := DropN(tc.types, 3) + [Operand(tc.types, 1).ty];
            Above(tc, types) && GoesOn(tc, OnSelect(tc).value, types)
  {
    hide Nested;
  }

  lemma TypesBrIf(tc: Checker, d: nat)
    requires Live(tc) && OnBrIf(tc, d).Some?
    ensures Above(tc, DropN(tc.types, 1)) && GoesOn(tc, OnBrIf(tc, d).value, DropN(tc.types, 1))
  {
    hide Nested, CheckSignature;
    PopConcrete(tc, [I32]);
    var tc1 := PopSignature(tc, [I32]).value;
    RePush(tc1, tc1.LabelAt(d).BrTypes());
  }

  lemma RePush(tc: Checker, ts: seq<Type>)
    requires Wf(tc) && !tc.Top().unreachable && Concrete(tc.types) && Concrete(ts) && PopPush(tc, ts, ts).Some?
    ensures PopPush(tc, ts, ts) == Some(tc)
  {
    hide PopSignature;
    PopConcrete(tc, ts);
  }

  lemma TypesCall(ctx: Ctx, tc: Checker, f: nat)
    requires ConcreteCtx(ctx) && Live(tc) && OnCall(ctx, tc, f).Some?
    ensures var types := LowerCall(ctx, tc.types, f).1;
            Above(tc, types) && GoesOn(tc, OnCall(ctx, tc, f).value, types)
  {
    hide Nested, PopSignature;
    PopConcrete(tc, ctx.funcs[f].params);
  }

  lemma {:induction false} TypesLabel(ctx: Ctx, tc: Checker, kind: Kind, sig: Sig, body: ExprList, labels: seq<CLabel>,
                                      next: nat)
    requires kind == BlockLabel || kind == LoopLabel
    requires ConcreteCtx(ctx) && Live(tc) && NarrowSig(sig) && Concrete(sig.results) && NarrowList(body)
             && ConcreteList(body)
    requires ElabExpr(ctx, tc, C.LabelExpr(kind, sig, body)).Some?
    ensures var r := LowerExpr(ctx, C.LabelExpr(kind, sig, body), tc.types, labels, next);
            Above(tc, r.types) && GoesOn(tc, ElabExpr(ctx, tc, C.LabelExpr(kind, sig, body)).value.tc, r.types)
    decreases body, 1
  {
    hide ElabBody, ElabList, LowerList, EnterLabel, OnEnd, Nested, ConcreteCtx, Decl, C.Exits;
    C.ElabBodyParts(ctx, EnterLabel(tc, kind, sig), body);
    LabelStack(ctx, tc, kind, sig, body);
    var tc1 := EnterLabel(tc, kind, sig).value;
    var inner := labels + [CLabel(kind == LoopLabel, sig.results, |tc.types|, next)];
    TypesList(ctx, tc1, body, inner, next + 1);
    ExitLabels(tc, tc1, ElabList(ctx, tc1, body).value.tc, OnEnd(ElabList(ctx, tc1, body).value.tc).value, kind, sig);
    if body == Nil {
      EmptyLoop(ctx, tc, tc1, sig, kind);
    }
  }

  lemma ExitLabels(tc: Checker, tc1: Checker, tc2: Checker, tc3: Checker, kind: Kind, sig: Sig)
    requires C.Exits(tc, tc1, tc2, tc3, kind, sig)
    ensures tc3.labels == tc.labels
  {
  }

  /** An empty body has no results to leave. */
  lemma EmptyLoop(ctx: Ctx, tc: Checker, tc1: Checker, sig: Sig, kind: Kind)
    requires Entered(tc, tc1, kind, sig) && tc1.types == tc.types && tc1.Top().limit == |tc.types|
    requires OnEnd(ElabList(ctx, tc1, Nil).value.tc).Some?
    ensures sig.results == []
  {
    hide Nested, CheckSignature;
  }

  /** The condition is gone, and each branch starts on what is left. */
  lemma IfStack(ctx: Ctx, tc: Checker, sig: Sig, thn: ExprList, hasElse: bool, els: ExprList)
    requires Live(tc) && NarrowSig(sig) && Concrete(sig.results) && ElabExpr(ctx, tc, If(sig, thn, hasElse, els)).Some?
    ensures PopSignature(tc, [I32]).Some? && OnIf(tc, sig).Some? && ElabList(ctx, OnIf(tc, sig).value, thn).Some?
    ensures var tc0, tc1 := PopSignature(tc, [I32]).value, OnIf(tc, sig).value;
            && tc0 == tc.(types := DropN(tc.types, 1)) && tc.Top().limit + 1 <= |tc.types| && Live(tc0)
            && Entered(tc0, tc1, IfLabel, sig) && tc1.types == tc0.types && tc1.Top().limit == |tc0.types| && Live(tc1)
  {
    hide Nested, ElabList, OnIf, OnEnd, OnElse;
    PopIf(ctx, tc, sig, thn, hasElse, els);
    PopConcrete(tc, [I32]);
    C.OnIfParts(tc, sig);
    var tc0, tc1 := PopSignature(tc, [I32]).value, OnIf(tc, sig).value;
    assert tc1.types == tc0.types;
    LiveInside(tc0, tc1, IfLabel, sig);
  }

  lemma PopIf(ctx: Ctx, tc: Checker, sig: Sig, thn: ExprList, hasElse: bool, els: ExprList)
    requires ElabExpr(ctx, tc, If(sig, thn, hasElse, els)).Some?
    ensures PopSignature(tc, [I32]).Some? && OnIf(tc, sig).Some? && ElabList(ctx, OnIf(tc, sig).value, thn).Some?
  {
    hide ElabList, EnterLabel;
  }

  lemma {:induction false} TypesIf(ctx: Ctx, tc: Checker, sig: Sig, thn: ExprList, hasElse: bool, els: ExprList,
                                   labels: seq<CLabel>, next: nat)
    requires var e := If(sig, thn, hasElse, els);
             ConcreteCtx(ctx) && Live(tc) && NarrowExpr(e) && ConcreteExpr(e) && ElabExpr(ctx, tc, e).Some?
    ensures var e := If(sig, thn, hasElse, els);
            var r := LowerExpr(ctx, e, tc.types, labels, next);
            Above(tc, r.types) && GoesOn(tc, ElabExpr(ctx, tc, e).value.tc, r.types)
    decreases If(sig, thn, hasElse, els), -1
  {
    hide ElabList, LowerList, OnIf, OnEnd, OnElse, Nested, ConcreteCtx, Decl, C.Exits, Entered, PopSignature;
    hide ElabBody, ElabThen, Reset;
    IfStack(ctx, tc, sig, thn, hasElse, els);
    var tc0, tc1 := PopSignature(tc, [I32]).value, OnIf(tc, sig).value;
    var inner := labels + [CLabel(false, sig.results, |tc0.types|, next)];
    TypesList(ctx, tc1, thn, inner, next + 1);
    IfTypes(ctx, tc, sig, thn, hasElse, els);
    var t := LowerList(ctx, thn, tc0.types, inner, next + 1);
    ResetAbove(tc1, t.types, tc0.types);
    if hasElse {
      ElseStack(ctx, tc, sig, thn, els);
      var tc3 := OnElse(ElabList(ctx, tc1, thn).value.tc).value;
      TypesList(ctx, tc3, els, inner, t.next);
      ResetAbove(tc3, LowerList(ctx, els, tc0.types, inner, t.next).types, tc0.types);
    }
  }

  lemma ResetAbove(tc1: Checker, types: seq<Type>, base: seq<Type>)
    requires Above(tc1, types) && tc1.types == base && tc1.Top().limit == |base|
    ensures Reset(types, |base|) == base
  {
  }

  /** The false branch starts on the same stack as the true one. */
  lemma ElseStack(ctx: Ctx, tc: Checker, sig: Sig, thn: ExprList, els: ExprList)
    requires Live(tc) && NarrowSig(sig) && Concrete(sig.results) && ElabExpr(ctx, tc, If(sig, thn, true, els)).Some?
    requires PopSignature(tc, [I32]).Some? && OnIf(tc, sig).Some? && ElabList(ctx, OnIf(tc, sig).value, thn).Some?
    ensures OnElse(ElabList(ctx, OnIf(tc, sig).value, thn).value.tc).Some?
    ensures var tc0 := tc.(types := DropN(tc.types, 1));
            var tc3 := OnElse(ElabList(ctx, OnIf(tc, sig).value, thn).value.tc).value;
            && Entered(tc0, tc3, ElseLabel, sig) && tc3.types == tc0.types && tc3.Top().limit == |tc0.types|
               && Live(tc3)
            && ElabList(ctx, tc3, els).Some?
  {
    hide Nested, ElabList, OnIf, OnEnd, OnElse, C.Exits;
    C.IfElseChecked(ctx, tc, sig, thn, els);
    IfStack(ctx, tc, sig, thn, true, els);
    var tc0 := PopSignature(tc, [I32]).value;
    var tc3 := OnElse(ElabList(ctx, OnIf(tc, sig).value, thn).value.tc).value;
    assert tc3.types == tc0.types;
    LiveInside(tc0, tc3, ElseLabel, sig);
  }

  /** Behind the whole `if`. */
  lemma IfTypes(ctx: Ctx, tc: Checker, sig: Sig, thn: ExprList, hasElse: bool, els: ExprList)
    requires var e := If(sig, thn, hasElse, els);
             Live(tc) && NarrowSig(sig) && Concrete(sig.results) && ElabExpr(ctx, tc, e).Some?
    ensures GoesOn(tc, ElabExpr(ctx, tc, If(sig, thn, hasElse, els)).value.tc, DropN(tc.types, 1) + sig.results)
  {
    hide Nested, ElabList, OnIf, OnEnd, OnElse, PopSignature;
    IfStack(ctx, tc, sig, thn, hasElse, els);
    var tc0, tc1 := PopSignature(tc, [I32]).value, OnIf(tc, sig).value;
    if hasElse {
      C.IfElseChecked(ctx, tc, sig, thn, els);
      ElseStack(ctx, tc, sig, thn, els);
      var tc3 := OnElse(ElabList(ctx, tc1, thn).value.tc).value;
      var tc4 := ElabList(ctx, tc3, els).value.tc;
      ListFrame(ctx, tc3, els);
      LeftTypes(tc0, tc3, tc4, OnEnd(tc4).value, ElseLabel, sig);
    } else {
      C.IfChecked(ctx, tc, sig, thn, els);
      var tc2 := ElabList(ctx, tc1, thn).value.tc;
      ListFrame(ctx, tc1, thn);
      LeftTypes(tc0, tc1, tc2, OnEnd(tc2).value, IfLabel, sig);
    }
  }
}
