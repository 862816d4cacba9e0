/** Whole runs of the written C: every function of a validated module computes what the structured
    semantics says. */
module CPreservation {
  import opened Syntax
  import opened TypeChecker
  import opened Elaborate
  import opened CMachine
  import opened CLowering
  import opened CSimulation
  import opened CStatics
  import opened CCorrectness
  import C = Correctness
  import S = Semantics

  /** A validated WebAssembly 1.0 module and the C written for it. */
  ghost predicate Written(p: CProg) {
    && p.c == LowerModule(p.m)
    && ConcreteModule(p.m) && Narrow(p.m)
    && forall f :: 0 <= f < |p.m.funcs| ==> ElabFunc(p.m, f).Some?
  }

  lemma WrittenFunc(p: CProg, f: nat)
    requires Written(p) && f < |p.m.funcs|
    ensures InFunc(p, f) && |p.c.funcs| == |p.m.funcs| && |p.m.funcs[f].sig.results| <= 1
  {
    hide ConcreteModule, LowerFunc, ElabFunc, NarrowList;
  }

  /** What the mutual induction shows for a list and for an instruction. */
  ghost predicate ListReady(p: CProg, a: Site, tc: Checker, es: ExprList, labels: seq<CLabel>, next: nat,
                            outer: seq<Word>,
                            vars: map<CVar, Word>, st: S.State, arities: seq<nat>, i: nat)
  {
    && Written(p) && Runnable(p, a, tc, labels, outer, vars, st, arities)
    && ElabList(CtxOf(p.m, a.f), tc, es).Some? && NarrowList(es) && ConcreteList(es)
    && var r := LowerList(CtxOf(p.m, a.f), es, tc.types, labels, next);
       SegAt(a.code, i, r.code) && Lands(a, r.code, labels) && Fresh(a, i, labels, next)
  }

  ghost predicate ExprReady(p: CProg, a: Site, tc: Checker, e: Expr, labels: seq<CLabel>, next: nat, outer: seq<Word>,
                            vars: map<CVar, Word>, st: S.State, arities: seq<nat>, i: nat)
  {
    && Written(p) && Runnable(p, a, tc, labels, outer, vars, st, arities)
    && ElabExpr(CtxOf(p.m, a.f), tc, e).Some? && NarrowExpr(e) && ConcreteExpr(e)
    && var r := LowerExpr(CtxOf(p.m, a.f), e, tc.types, labels, next);
       SegAt(a.code, i, r.code) && Lands(a, r.code, labels) && Fresh(a, i, labels, next)
  }

  lemma LandsPart(a: Site, code: seq<CStmt>, part: seq<CStmt>, labels: seq<CLabel>)
    requires Lands(a, code, labels)
    requires forall k :: 0 <= k < |labels| && UsesList(part, labels[k].id) ==> UsesList(code, labels[k].id)
    ensures Lands(a, part, labels)
  {
  }

  lemma LandsSplit(a: Site, x: seq<CStmt>, y: seq<CStmt>, labels: seq<CLabel>)
    requires Lands(a, x + y, labels)
    ensures Lands(a, x, labels) && Lands(a, y, labels)
  {
    hide UsesList, Find;
    forall k | 0 <= k < |labels|
      ensures UsesList(x + y, labels[k].id) <==> UsesList(x, labels[k].id) || UsesList(y, labels[k].id)
    {
      UsesAppend(x, y, labels[k].id);
    }
    LandsPart(a, x + y, x, labels);
    LandsPart(a, x + y, y, labels);
  }

  /** The list behind an instruction that fell through. */
  lemma NextReady(p: CProg, a: Site, tc: Checker, e: Expr, rest: ExprList, labels: seq<CLabel>, next: nat,
                  outer: seq<Word>,
                  vars: map<CVar, Word>, st: S.State, arities: seq<nat>, i: nat, vars': map<CVar, Word>, st': S.State)
    requires ListReady(p, a, tc, Cons(e, rest), labels, next, outer, vars, st, arities, i) && !IsJump(e)
    requires var h := LowerExpr(CtxOf(p.m, a.f), e, tc.types, labels, next);
             EnvOk(CtxOf(p.m, a.f), h.types, vars', OnTop(outer, st'))
    ensures ElabExpr(CtxOf(p.m, a.f), tc, e).Some?
    ensures var ctx := CtxOf(p.m, a.f);
            var h, l := ElabExpr(ctx, tc, e).value, LowerExpr(ctx, e, tc.types, labels, next);
            ListReady(p, a, h.tc, rest, labels, l.next, outer, vars', st', arities, i + |l.code|)
            && h.tc.labels == tc.labels && l.types == h.tc.types && Above(tc, l.types)
  {
    hide LowerExpr, ElabExpr, Lands, SegAt, Fresh, EnvOk, Live, C.LabelsMatch, Labelled, NarrowExpr, ConcreteExpr,
         Written;
    hide LowerModule, ConcreteModule, DeclaresIn;
    var ctx := CtxOf(p.m, a.f);
    var h, l := ElabExpr(ctx, tc, e).value, LowerExpr(ctx, e, tc.types, labels, next);
    var t := LowerList(ctx, rest, l.types, labels, l.next);
    InFuncConcrete(p, a.f);
    TypesExpr(ctx, tc, e, labels, next);
    SegSplit(a.code, i, l.code, t.code);
    LandsSplit(a, l.code, t.code, labels);
    ExprDeclares(ctx, e, tc.types, labels, next);
    FreshOn(a, i, labels, next, l.code, l.next);
    SameLabels(tc, h.tc, labels, arities);
  }

  lemma SameLabels(tc: Checker, tc': Checker, labels: seq<CLabel>, arities: seq<nat>)
    requires Labelled(tc, labels) && C.LabelsMatch(arities, tc) && tc'.labels == tc.labels
    ensures Labelled(tc', labels) && C.LabelsMatch(arities, tc')
  {
  }

  /** Outcomes of the rest of a list, seen from its start. */
  lemma MatchesFrom(p: CProg, a: Site, tc: Checker, tc': Checker, types: seq<Type>, next: nat, outer: seq<Word>,
                    s: Config, o: S.Outcome, fuel: nat)
    requires a.f < |p.m.funcs| && Live(tc) && tc'.labels == tc.labels && Above(tc, tc'.types)
    requires Simulated(p, a, tc', types, next, outer, s, o, fuel)
    ensures Simulated(p, a, tc, types, next, outer, s, o, fuel)
  {
    hide Exhausts, Arrives, FallsThrough, ReturnsAt, Traps, Lasts, Nested;
    if o.Branch? && !Exhausts(p, s) {
      LimitBelow(tc.labels, |tc.labels| - 1 - o.depth);
      var mark := tc.LabelAt(o.depth).limit;
      assert tc'.types[..mark] == tc'.types[..tc.Top().limit][..mark] == tc.types[..tc.Top().limit][..mark]
             == tc.types[..mark];
    }
  }

  // ----- Entering labels -------------------------------------------------------------------------------------

  function InnerLabels(labels: seq<CLabel>, kind: Kind, sig: Sig, mark: nat, id: nat): seq<CLabel> {
    labels + [CLabel(kind == LoopLabel, sig.results, mark, id)]
  }

  /** A label's body starts on the stack that the label is in, with an operand stack of its own. */
  lemma EnterLabelSite(p: CProg, a: Site, a': Site, tc: Checker, tc1: Checker, kind: Kind, sig: Sig,
                       labels: seq<CLabel>,
                       id: nat, outer: seq<Word>, vars: map<CVar, Word>, st: S.State, arities: seq<nat>, target: Kont)
    requires Runnable(p, a, tc, labels, outer, vars, st, arities)
    requires Entered(tc, tc1, kind, sig) && NarrowSig(sig) && tc1.types == tc.types && tc1.Top().limit == |tc.types|
             && Live(tc1)
    requires a'.f == a.f && a'.targets == a.targets + [target]
    ensures |outer + st.stack| == |tc.types|
    ensures |tc1.Top().BrTypes()| == (if kind == LoopLabel then 0 else |sig.results|)
    ensures Runnable(p, a', tc1, InnerLabels(labels, kind, sig, |tc.types|, id), outer + st.stack, vars,
                     st.(stack := []),
                     arities + [|tc1.Top().BrTypes()|])
  {
    hide EnvOk, LowerModule, ConcreteModule, Live, Nested;
    EnvTypes(CtxOf(p.m, a.f), tc.types, vars, OnTop(outer, st));
    assert (outer + st.stack) + [] == outer + st.stack;
    assert OnTop(outer + st.stack, st.(stack := [])) == OnTop(outer, st);
    forall k | 0 <= k < |tc.labels| ensures tc1.labels[k] == tc.labels[k] {
      assert tc1.labels[k] == tc1.labels[..|tc.labels|][k];
    }
  }

  /** The labels around a body land as before, its own label where it is declared. */
  lemma LandsInside(a: Site, a': Site, code: seq<CStmt>, labels: seq<CLabel>, kind: Kind, sig: Sig, mark: nat, id: nat,
                    target: Kont)
    requires |labels| == |a.targets| && a'.targets == a.targets + [target]
    requires forall k :: 0 <= k < |labels| && UsesList(code, labels[k].id) ==>
               Find(At(a'.code, 0, a'.below), labels[k].id) == Some(a.targets[k])
    requires UsesList(code, id) ==> Find(At(a'.code, 0, a'.below), id) == Some(target)
    ensures Lands(a', code, InnerLabels(labels, kind, sig, mark, id))
  {
    hide UsesList, Find;
  }

  lemma FreshInside(a: Site, i: nat, labels: seq<CLabel>, kind: Kind, sig: Sig, mark: nat, id: nat, a': Site)
    requires Fresh(a, i, labels, id) && a'.code == a.code
    ensures Fresh(a', i, InnerLabels(labels, kind, sig, mark, id), id + 1)
  {
  }

  /** A block taken apart. */
  lemma BlockParts(p: CProg, a: Site, tc: Checker, sig: Sig, body: ExprList, labels: seq<CLabel>, next: nat,
                   outer: seq<Word>, vars: map<CVar, Word>, st: S.State, arities: seq<nat>, i: nat)
    requires ExprReady(p, a, tc, Block(sig, body), labels, next, outer, vars, st, arities, i)
    ensures EnterLabel(tc, BlockLabel, sig).Some?
    ensures var ctx, tc1 := CtxOf(p.m, a.f), EnterLabel(tc, BlockLabel, sig).value;
            var labels' := InnerLabels(labels, BlockLabel, sig, |tc.types|, next);
            var b := LowerList(ctx, body, tc.types, labels', next + 1);
            var decl := Decl(b.code, next);
            var end := i + |b.code| + |decl|;
            var a' := a.(targets := a.targets + [At(a.code, end, a.below)]);
            && LowerExpr(ctx, Block(sig, body), tc.types, labels, next)
               == Lowered(b.code + decl, Reset(b.types, |tc.types|) + sig.results, b.next)
            && SegAt(a.code, i + |b.code|, decl)
            && Live(tc) && Live(tc1) && Entered(tc, tc1, BlockLabel, sig) && tc1.types == tc.types
            && tc1.Top().limit == |tc.types| == |outer + st.stack| && |outer| == tc.Top().limit
               && |a.targets| == |tc.labels|
            && ListReady(p, a', tc1, body, labels', next + 1, outer + st.stack, vars, st.(stack := []),
                         arities + [|sig.results|], i)
  {
    hide LowerList, ElabList, Lands, EnvOk, Live, C.LabelsMatch, Labelled, Written, NarrowList, ConcreteList, OnEnd;
    hide LowerModule, ConcreteModule, DeclaresIn, EnterLabel, Find, UsesList, Fresh, SegAt, C.Exits, Entered, Runnable;
    RunnableLive(p, a, tc, labels, outer, vars, st, arities);
    var ctx := CtxOf(p.m, a.f);
    C.ElabBodyParts(ctx, EnterLabel(tc, BlockLabel, sig), body);
    LabelStack(ctx, tc, BlockLabel, sig, body);
    var tc1 := EnterLabel(tc, BlockLabel, sig).value;
    var labels' := InnerLabels(labels, BlockLabel, sig, |tc.types|, next);
    var b := LowerList(ctx, body, tc.types, labels', next + 1);
    var decl := Decl(b.code, next);
    var target := At(a.code, i + |b.code| + |decl|, a.below);
    var a' := a.(targets := a.targets + [target]);
    SegSplit(a.code, i, b.code, decl);
    LandsSplit(a, b.code, decl, labels);
    ListDeclares(ctx, body, tc.types, labels', next + 1);
    if UsesList(b.code, next) {
      DeclFound(a, i, labels, next, b.code, b.next);
    }
    LandsHere(a, b.code, labels);
    LandsInside(a, a', b.code, labels, BlockLabel, sig, |tc.types|, next, target);
    FreshInside(a, i, labels, BlockLabel, sig, |tc.types|, next, a');
    EnterLabelSite(p, a, a', tc, tc1, BlockLabel, sig, labels, next, outer, vars, st, arities, target);
  }

  lemma RunnableLive(p: CProg, a: Site, tc: Checker, labels: seq<CLabel>, outer: seq<Word>, vars: map<CVar, Word>,
                     st: S.State, arities: seq<nat>)
    requires Runnable(p, a, tc, labels, outer, vars, st, arities)
    ensures Live(tc) && |outer| == tc.Top().limit && |a.targets| == |labels| == |tc.labels|
    ensures InFunc(p, a.f)
  {
  }

  lemma LandsHere(a: Site, code: seq<CStmt>, labels: seq<CLabel>)
    requires Lands(a, code, labels)
    ensures |labels| == |a.targets|
    ensures forall k :: 0 <= k < |labels| && UsesList(code, labels[k].id) ==>
               Find(At(a.code, 0, a.below), labels[k].id) == Some(a.targets[k])
  {
  }

  /** A loop with a body taken apart: the label is in front, and a branch to it goes just behind it. */
  lemma LoopParts(p: CProg, a: Site, tc: Checker, sig: Sig, body: ExprList, labels: seq<CLabel>, next: nat,
                  outer: seq<Word>, vars: map<CVar, Word>, st: S.State, arities: seq<nat>, i: nat)
    requires ExprReady(p, a, tc, Loop(sig, body), labels, next, outer, vars, st, arities, i) && body != Nil
    ensures EnterLabel(tc, LoopLabel, sig).Some?
    ensures var ctx, tc1 := CtxOf(p.m, a.f), EnterLabel(tc, LoopLabel, sig).value;
            var labels' := InnerLabels(labels, LoopLabel, sig, |tc.types|, next);
            var b := LowerList(ctx, body, tc.types, labels', next + 1);
            var a' := a.(targets := a.targets + [At(a.code, i + 1, a.below)]);
            && LowerExpr(ctx, Loop(sig, body), tc.types, labels, next)
               == Lowered([LabelDecl(next)] + b.code, Reset(b.types, |tc.types|) + sig.results, b.next)
            && SegAt(a.code, i, [LabelDecl(next)])
            && Live(tc) && Live(tc1) && Entered(tc, tc1, LoopLabel, sig) && tc1.types == tc.types
            && tc1.Top().limit == |tc.types| == |outer + st.stack| && |outer| == tc.Top().limit
               && |a.targets| == |tc.labels|
            && ListReady(p, a', tc1, body, labels', next + 1, outer + st.stack, vars, st.(stack := []),
                         arities + [0], i + 1)
  {
    hide LowerList, ElabList, Lands, EnvOk, Live, C.LabelsMatch, Labelled, Written, NarrowList, ConcreteList, OnEnd;
    hide LowerModule, ConcreteModule, DeclaresIn, EnterLabel, Find, UsesList, Fresh, SegAt, C.Exits, Entered, Runnable;
    RunnableLive(p, a, tc, labels, outer, vars, st, arities);
    var ctx := CtxOf(p.m, a.f);
    C.ElabBodyParts(ctx, EnterLabel(tc, LoopLabel, sig), body);
    LabelStack(ctx, tc, LoopLabel, sig, body);
    var tc1 := EnterLabel(tc, LoopLabel, sig).value;
    var labels' := InnerLabels(labels, LoopLabel, sig, |tc.types|, next);
    var b := LowerList(ctx, body, tc.types, labels', next + 1);
    var target := At(a.code, i + 1, a.below);
    var a' := a.(targets := a.targets + [target]);
    SegSplit(a.code, i, [LabelDecl(next)], b.code);
    LandsSplit(a, [LabelDecl(next)], b.code, labels);
    LoopFound(a, i, labels, next);
    LandsHere(a, b.code, labels);
    LandsInside(a, a', b.code, labels, LoopLabel, sig, |tc.types|, next, target);
    LoopFresh(a, i, labels, next, sig, |tc.types|, a');
    EnterLabelSite(p, a, a', tc, tc1, LoopLabel, sig, labels, next, outer, vars, st, arities, target);
  }

  lemma LoopFound(a: Site, i: nat, labels: seq<CLabel>, next: nat)
    requires Fresh(a, i, labels, next) && SegAt(a.code, i, [LabelDecl(next)])
    ensures Find(At(a.code, 0, a.below), next) == Some(At(a.code, i + 1, a.below))
  {
    var none: seq<CStmt> := [];
    assert none + [LabelDecl(next)] == [LabelDecl(next)];
    DeclFound(a, i, labels, next, none, next + 1);
  }

  lemma LoopFresh(a: Site, i: nat, labels: seq<CLabel>, next: nat, sig: Sig, mark: nat, a': Site)
    requires Fresh(a, i, labels, next) && SegAt(a.code, i, [LabelDecl(next)]) && a'.code == a.code
    ensures Fresh(a', i + 1, InnerLabels(labels, LoopLabel, sig, mark, next), next + 1)
  {
    assert a.code[i] == a.code[i..i + 1][0] == LabelDecl(next);
  }

  // ----- The mutual induction ------------------------------------------------------------------------------------

  lemma {:induction false} SimList(p: CProg, a: Site, tc: Checker, es: ExprList, labels: seq<CLabel>, next: nat,
                                   outer: seq<Word>, vars: map<CVar, Word>, st: S.State, arities: seq<nat>, i: nat,
                                     fuel: nat)
    requires ListReady(p, a, tc, es, labels, next, outer, vars, st, arities, i)
    ensures var r := LowerList(CtxOf(p.m, a.f), es, tc.types, labels, next);
            Simulated(p, a, tc, r.types, i + |r.code|, outer, Conf(a, i, vars, st),
                      S.Exec(p.m, es, arities, st, fuel), fuel)
    decreases fuel, 0, es, 0
  {
    hide LowerExpr, ElabExpr, Lands, SegAt, Fresh, EnvOk, Live, C.LabelsMatch, Labelled, NarrowExpr, ConcreteExpr,
         Written;
    hide LowerModule, ConcreteModule, Reaches, Exhausts, S.ExecExpr, Arrives, ReturnsAt, Lasts, Traps, Above;
    var ctx, s := CtxOf(p.m, a.f), Conf(a, i, vars, st);
    match es
    case Nil => SimEmpty(p, a, tc, i, outer, vars, st, fuel);
    case Cons(e, rest) =>
      var h := LowerExpr(ctx, e, tc.types, labels, next);
      HeadReady(p, a, tc, e, rest, labels, next, outer, vars, st, arities, i);
      SimExpr(p, a, tc, e, labels, next, outer, vars, st, arities, i, fuel);
      var o := S.ExecExpr(p.m, e, arities, st, fuel);
      if !Exhausts(p, s) && o.Normal? {
        NoJump(p.m, e, arities, st, fuel);
        var full := OnTop(outer, o.state);
        var vars' :| EnvOk(ctx, h.types, vars', full) && Reaches(p, s, Conf(a, i + |h.code|, vars', full), 0);
        NextReady(p, a, tc, e, rest, labels, next, outer, vars, st, arities, i, vars', o.state);
        var tc1 := ElabExpr(ctx, tc, e).value.tc;
        SimList(p, a, tc1, rest, labels, h.next, outer, vars', o.state, arities, i + |h.code|, fuel);
        var t := LowerList(ctx, rest, h.types, labels, h.next);
        RestMatches(p, a, tc, tc1, t.types, i + |h.code| + |t.code|, outer, s, Conf(a, i + |h.code|, vars', o.state),
                    S.Exec(p.m, rest, arities, o.state, fuel), fuel);
      }
  }

  lemma RestMatches(p: CProg, a: Site, tc: Checker, tc1: Checker, types: seq<Type>, next: nat, outer: seq<Word>,
                    s: Config, t: Config, o: S.Outcome, fuel: nat)
    requires a.f < |p.m.funcs| && Live(tc) && tc1.labels == tc.labels && Above(tc, tc1.types)
    requires Reaches(p, s, t, 0) && t.f == s.f && t.callers == s.callers
    requires Simulated(p, a, tc1, types, next, outer, t, o, fuel)
    ensures Simulated(p, a, tc, types, next, outer, s, o, fuel)
  {
    hide Simulated, Reaches, Live, Above;
    SimulatedLater(p, a, tc1, types, next, outer, s, t, 0, o, fuel);
    MatchesFrom(p, a, tc, tc1, types, next, outer, s, o, fuel);
  }

  lemma SimEmpty(p: CProg, a: Site, tc: Checker, i: nat, outer: seq<Word>, vars: map<CVar, Word>, st: S.State,
                 fuel: nat)
    requires InFunc(p, a.f) && EnvOk(CtxOf(p.m, a.f), tc.types, vars, OnTop(outer, st))
    ensures Matches(p, a, tc, tc.types, i, outer, Conf(a, i, vars, st), S.Normal(st), fuel)
  {
    hide EnvOk, Reaches, InFunc;
    ReachesNow(p, Conf(a, i, vars, st));
    assert Conf(a, i, vars, st) == Conf(a, i, vars, OnTop(outer, st));
  }

  lemma HeadReady(p: CProg, a: Site, tc: Checker, e: Expr, rest: ExprList, labels: seq<CLabel>, next: nat,
                  outer: seq<Word>,
                  vars: map<CVar, Word>, st: S.State, arities: seq<nat>, i: nat)
    requires ListReady(p, a, tc, Cons(e, rest), labels, next, outer, vars, st, arities, i)
    ensures ExprReady(p, a, tc, e, labels, next, outer, vars, st, arities, i)
  {
    hide LowerExpr, ElabExpr, Lands, SegAt, Fresh, NarrowExpr, ConcreteExpr, Written, Runnable;
    RunnableLive(p, a, tc, labels, outer, vars, st, arities);
    var ctx := CtxOf(p.m, a.f);
    var h := LowerExpr(ctx, e, tc.types, labels, next);
    if !IsJump(e) {
      var t := LowerList(ctx, rest, h.types, labels, h.next);
      SegSplit(a.code, i, h.code, t.code);
      LandsSplit(a, h.code, t.code, labels);
    }
  }

  lemma ExecBlock(m: Module, sig: Sig, body: ExprList, arities: seq<nat>, st: S.State, fuel: nat)
    requires sig.params == []
    ensures S.ExecExpr(m, Block(sig, body), arities, st, fuel)
         == S.ExitLabel(S.Exec(m, body, arities + [|sig.results|], st.(stack := []), fuel), st.stack)
  {
    hide S.Exec, S.ExitLabel;
    assert S.Take(st.stack, 0) == [] && S.Under(st.stack, 0) == st.stack;
  }

  /** The writer's type stack at the end of a label's body. */
  lemma BodyTypes(ctx: Ctx, tc: Checker, tc1: Checker, body: ExprList, results: seq<Type>, labels: seq<CLabel>,
                  next: nat)
    requires ConcreteCtx(ctx) && Live(tc1) && tc1.types == tc.types && tc1.Top().limit == |tc.types|
    requires NarrowList(body) && ConcreteList(body) && ElabList(ctx, tc1, body).Some?
    requires var tc2 := ElabList(ctx, tc1, body).value.tc; Live(tc2) ==> tc2.types == tc.types + results
    ensures var b := LowerList(ctx, body, tc.types, labels, next);
            Reset(b.types, |tc.types|) == tc.types && (!HasJump(body) ==> b.types == tc.types + results)
  {
    hide LowerList, ElabList, Live, Reset, NarrowList, ConcreteList;
    TypesList(ctx, tc1, body, labels, next);
    ResetAbove(tc1, LowerList(ctx, body, tc.types, labels, next).types, tc.types);
  }

  lemma BlockTypes(p: CProg, a: Site, tc: Checker, kind: Kind, sig: Sig, body: ExprList, labels: seq<CLabel>, next: nat)
    requires InFunc(p, a.f) && Live(tc) && NarrowSig(sig) && Concrete(sig.results) && NarrowList(body)
             && ConcreteList(body)
    requires kind == BlockLabel || kind == LoopLabel
    requires ElabExpr(CtxOf(p.m, a.f), tc, C.LabelExpr(kind, sig, body)).Some?
    ensures var b := LowerList(CtxOf(p.m, a.f), body, tc.types, labels, next);
            Reset(b.types, |tc.types|) == tc.types && (!HasJump(body) ==> b.types == tc.types + sig.results)
  {
    hide LowerList, ElabList, Live, Reset, NarrowList, ConcreteList, EnterLabel, OnEnd, Nested, Entered, C.Exits;
    hide LowerModule, ConcreteModule;
    var ctx := CtxOf(p.m, a.f);
    InFuncConcrete(p, a.f);
    C.ElabBodyParts(ctx, EnterLabel(tc, kind, sig), body);
    LabelStack(ctx, tc, kind, sig, body);
    var tc1 := EnterLabel(tc, kind, sig).value;
    LiveFacts(ElabList(ctx, tc1, body).value.tc);
    BodyTypes(ctx, tc, tc1, body, sig.results, labels, next);
  }

  lemma LiveFacts(tc: Checker)
    ensures Live(tc) ==> Concrete(tc.types) && !tc.Top().unreachable
  {
  }

  lemma MatchesNormal(p: CProg, a: Site, tc: Checker, types: seq<Type>, next: nat, outer: seq<Word>,
                      s: Config, o: S.Outcome, fuel: nat)
    requires a.f < |p.m.funcs| && o.Normal? && Matches(p, a, tc, types, next, outer, s, o, fuel)
    ensures FallsThrough(p, a, types, next, s, OnTop(outer, o.state))
  {
  }

  /** A body that falls through falls over the declaration behind it. */
  lemma OverDecl(p: CProg, a: Site, a': Site, types: seq<Type>, i: nat, code: seq<CStmt>, id: nat, s: Config,
                 st: S.State)
    requires a.f < |p.m.funcs| && a' == a.(targets := a'.targets) && FallsThrough(p, a', types, i, s, st)
    requires SegAt(a.code, i, Decl(code, id))
    ensures FallsThrough(p, a, types, i + |Decl(code, id)|, s, st)
  {
    hide EnvOk, Reaches, UsesList;
    var vars :| EnvOk(CtxOf(p.m, a.f), types, vars, st) && Reaches(p, s, Conf(a', i, vars, st), 0);
    assert Conf(a', i, vars, st) == Conf(a, i, vars, st);
    FallsOver(p, a, types, i, Decl(code, id), s, st);
  }

  lemma {:induction false} SimBlock(p: CProg, a: Site, tc: Checker, sig: Sig, body: ExprList, labels: seq<CLabel>,
                                    next: nat,
                                    outer: seq<Word>, vars: map<CVar, Word>, st: S.State, arities: seq<nat>, i: nat,
                                      fuel: nat)
    requires ExprReady(p, a, tc, Block(sig, body), labels, next, outer, vars, st, arities, i)
    ensures var r := LowerExpr(CtxOf(p.m, a.f), Block(sig, body), tc.types, labels, next);
            Simulated(p, a, tc, r.types, i + |r.code|, outer, Conf(a, i, vars, st),
                      S.ExecExpr(p.m, Block(sig, body), arities, st, fuel), fuel)
    decreases fuel, 0, body, 1
  {
    hide LowerList, ElabList, EnvOk, Live, Entered, EnterLabel, ListReady, Reaches, Exhausts, S.Exec, S.ExitLabel,
         Matches;
    hide Decl, SegAt, Reset, FallsThrough, S.ExecExpr, Runnable;
    RunnableLive(p, a, tc, labels, outer, vars, st, arities);
    BlockParts(p, a, tc, sig, body, labels, next, outer, vars, st, arities, i);
    var ctx, tc1 := CtxOf(p.m, a.f), EnterLabel(tc, BlockLabel, sig).value;
    var labels' := InnerLabels(labels, BlockLabel, sig, |tc.types|, next);
    var b := LowerList(ctx, body, tc.types, labels', next + 1);
    var end := i + |b.code| + |Decl(b.code, next)|;
    var a' := a.(targets := a.targets + [At(a.code, end, a.below)]);
    var inner := st.(stack := []);
    SimList(p, a', tc1, body, labels', next + 1, outer + st.stack, vars, inner, arities + [|sig.results|], i, fuel);
    var s := Conf(a, i, vars, st);
    ExecBlock(p.m, sig, body, arities, st, fuel);
    BlockTypes(p, a, tc, BlockLabel, sig, body, labels', next + 1);
    if !Exhausts(p, s) {
      var o := S.Exec(p.m, body, arities + [|sig.results|], inner, fuel);
      if o.Normal? {
        RunsThrough(p.m, body, arities + [|sig.results|], inner, fuel);
        MatchesNormal(p, a', tc1, b.types, i + |b.code|, outer + st.stack, s, o, fuel);
        OverDecl(p, a, a', tc.types + sig.results, i + |b.code|, b.code, next, s, OnTop(outer + st.stack, o.state));
      }
      ExitSimulated(p, a, a', tc, tc1, BlockLabel, sig, end, outer, st.stack, b.types, i + |b.code|, s, o, fuel);
    }
  }

  lemma ExecLoop(m: Module, sig: Sig, body: ExprList, arities: seq<nat>, st: S.State, fuel: nat)
    requires sig.params == []
    ensures var o := S.Exec(m, body, arities + [0], st.(stack := []), fuel);
            S.ExecExpr(m, Loop(sig, body), arities, st, fuel)
            == if o.Branch? && o.depth == 0 then
                 if fuel == 0 then S.Timeout
                 else S.ExecExpr(m, Loop(sig, body), arities, S.State(o.locals, st.stack + o.vals, o.globals), fuel - 1)
               else S.ExitLabel(o, st.stack)
  {
    C.ExecLoop(m, sig, body, arities, st, fuel);
    assert S.Take(st.stack, 0) == [] && S.Under(st.stack, 0) == st.stack;
  }

  /** One iteration further the loop is as it was. */
  lemma LoopReady(p: CProg, a: Site, tc: Checker, e: Expr, labels: seq<CLabel>, next: nat, outer: seq<Word>,
                  vars: map<CVar, Word>, st: S.State, arities: seq<nat>, i: nat, vars': map<CVar, Word>, st': S.State)
    requires ExprReady(p, a, tc, e, labels, next, outer, vars, st, arities, i)
    requires EnvOk(CtxOf(p.m, a.f), tc.types, vars', OnTop(outer, st'))
    ensures ExprReady(p, a, tc, e, labels, next, outer, vars', st', arities, i)
  {
    hide LowerExpr, ElabExpr, Lands, SegAt, Fresh, EnvOk, Live, C.LabelsMatch, Labelled, NarrowExpr, ConcreteExpr,
         Written, InFunc;
  }

  /** A branch back arrives behind the label with the loop's own stack. */
  lemma LoopBack(p: CProg, a: Site, a': Site, tc: Checker, tc1: Checker, sig: Sig, types: seq<Type>, end: nat,
                 outer: seq<Word>, st: S.State, i: nat, s: Config, o: S.Outcome, fuel: nat)
      returns (vars': map<CVar, Word>)
    requires a.f < |p.m.funcs| && a'.f == a.f == s.f && s.callers == a.callers
    requires Live(tc1) && Entered(tc, tc1, LoopLabel, sig) && tc1.types == tc.types && tc1.Top().limit == |tc.types|
    requires |outer + st.stack| == |tc.types| && sig.params == []
    requires a'.targets == a.targets + [At(a.code, i + 1, a.below)]
    requires o.Branch? && o.depth == 0
    requires Matches(p, a', tc1, types, end, outer + st.stack, s, o, fuel)
    ensures var st' := S.State(o.locals, st.stack + o.vals, o.globals);
            EnvOk(CtxOf(p.m, a.f), tc.types, vars', OnTop(outer, st')) && Reaches(p, s, Conf(a, i + 1, vars', st'), 1)
  {
    hide EnvOk, Reaches, Nested;
    var all := outer + st.stack;
    assert tc1.LabelAt(0) == tc1.Top() && tc1.LabelAt(0).BrTypes() == [];
    assert all[..|all|] + o.vals == outer + (st.stack + o.vals);
    assert LabelTypes(tc1, 0) == tc.types;
    vars' :| EnvOk(CtxOf(p.m, a.f), tc.types, vars', S.State(o.locals, outer + (st.stack + o.vals), o.globals))
      && Reaches(p, s, Config(Running, s.f, At(a.code, i + 1, a.below), vars', o.locals, o.globals, s.callers), 1);
  }

  lemma SimulatedStep(p: CProg, a: Site, tc: Checker, types: seq<Type>, next: nat, outer: seq<Word>,
                      s: Config, t: Config, o: S.Outcome, fuel: nat)
    requires a.f < |p.m.funcs| && t.f == s.f && t.callers == s.callers
    requires Reaches(p, s, t, 1) && Simulated(p, a, tc, types, next, outer, t, o, fuel)
    ensures Simulated(p, a, tc, types, next, outer, s, o, fuel + 1)
  {
    hide Reaches, Lasts, Traps, Exhausts, EnvOk, Arrives, FallsThrough, ReturnsAt;
    if Exhausts(p, t) {
      ExhaustsLater(p, s, t, 1);
    } else if o.Timeout? {
      LastsLater(p, s, t, 1, fuel);
    } else {
      SimulatedLater(p, a, tc, types, next, outer, s, t, 1, o, fuel);
    }
  }

  lemma SimNow(p: CProg, a: Site, tc: Checker, types: seq<Type>, next: nat, outer: seq<Word>, s: Config)
    requires a.f < |p.m.funcs| && s.status == Running
    ensures Simulated(p, a, tc, types, next, outer, s, S.Timeout, 0)
  {
    ReachesNow(p, s);
  }

  lemma SameFalls(p: CProg, a: Site, a': Site, types: seq<Type>, i: nat, s: Config, st: S.State)
    requires a.f < |p.m.funcs| && a' == a.(targets := a'.targets) && FallsThrough(p, a', types, i, s, st)
    ensures FallsThrough(p, a, types, i, s, st)
  {
    hide EnvOk, Reaches;
    var vars :| EnvOk(CtxOf(p.m, a.f), types, vars, st) && Reaches(p, s, Conf(a', i, vars, st), 0);
    assert Conf(a', i, vars, st) == Conf(a, i, vars, st);
  }

  /** The loop from just behind its label. */
  lemma {:induction false} SimLoopFrom(p: CProg, a: Site, tc: Checker, sig: Sig, body: ExprList, labels: seq<CLabel>,
                                       next: nat,
                                       outer: seq<Word>, vars: map<CVar, Word>, st: S.State, arities: seq<nat>, i: nat,
                                         fuel: nat)
    requires ExprReady(p, a, tc, Loop(sig, body), labels, next, outer, vars, st, arities, i) && body != Nil
    ensures var r := LowerExpr(CtxOf(p.m, a.f), Loop(sig, body), tc.types, labels, next);
            Simulated(p, a, tc, r.types, i + |r.code|, outer, Conf(a, i + 1, vars, st),
                      S.ExecExpr(p.m, Loop(sig, body), arities, st, fuel), fuel)
    decreases fuel, 0, body, 1
  {
    hide LowerList, ElabList, EnvOk, Live, Entered, EnterLabel, ListReady, Reaches, Exhausts, S.Exec, S.ExitLabel,
         Matches;
    hide SegAt, Reset, FallsThrough, S.ExecExpr, Runnable;
    RunnableLive(p, a, tc, labels, outer, vars, st, arities);
    LoopParts(p, a, tc, sig, body, labels, next, outer, vars, st, arities, i);
    var ctx, tc1 := CtxOf(p.m, a.f), EnterLabel(tc, LoopLabel, sig).value;
    var labels' := InnerLabels(labels, LoopLabel, sig, |tc.types|, next);
    var b := LowerList(ctx, body, tc.types, labels', next + 1);
    var end := i + 1 + |b.code|;
    var a' := a.(targets := a.targets + [At(a.code, i + 1, a.below)]);
    var inner := st.(stack := []);
    SimList(p, a', tc1, body, labels', next + 1, outer + st.stack, vars, inner, arities + [0], i + 1, fuel);
    var s := Conf(a, i + 1, vars, st);
    ExecLoop(p.m, sig, body, arities, st, fuel);
    BlockTypes(p, a, tc, LoopLabel, sig, body, labels', next + 1);
    if !Exhausts(p, s) {
      var o := S.Exec(p.m, body, arities + [0], inner, fuel);
      if o.Branch? && o.depth == 0 {
        var vars' := LoopBack(p, a, a', tc, tc1, sig, b.types, end, outer, st, i, s, o, fuel);
        SimAgain(p, a, tc, sig, body, labels, next, outer, vars, st, arities, i, vars',
                 S.State(o.locals, st.stack + o.vals, o.globals), s, fuel);
      } else {
        if o.Normal? {
          RunsThrough(p.m, body, arities + [0], inner, fuel);
          MatchesNormal(p, a', tc1, b.types, end, outer + st.stack, s, o, fuel);
          SameFalls(p, a, a', tc.types + sig.results, end, s, OnTop(outer + st.stack, o.state));
        }
        MatchesRetarget(p, a, a', tc1, b.types, end, outer + st.stack, s, o, fuel, At(a.code, end, a.below));
        ExitSimulated(p, a, a.(targets := a.targets + [At(a.code, end, a.below)]), tc, tc1, LoopLabel, sig, end,
                      outer, st.stack, b.types, end, s, o, fuel);
      }
    }
  }

  /** Where a label's own branch goes is irrelevant to outcomes that do not take it. */
  lemma MatchesRetarget(p: CProg, a: Site, a': Site, tc1: Checker, types: seq<Type>, next: nat, outer: seq<Word>,
                        s: Config, o: S.Outcome, fuel: nat, target: Kont)
    requires a.f < |p.m.funcs| && a'.f == a.f && a.targets != []
    requires a' == a.(targets := a'.targets) && |a'.targets| == |a.targets| + 1
             && a'.targets[..|a.targets|] == a.targets
    requires Matches(p, a', tc1, types, next, outer, s, o, fuel) && !(o.Branch? && o.depth == 0)
    ensures Matches(p, a.(targets := a.targets + [target]), tc1, types, next, outer, s, o, fuel)
  {
    hide EnvOk, Reaches, Arrives, ReturnsAt, Lasts, Traps;
    var a2 := a.(targets := a.targets + [target]);
    match o
    case Normal(st) =>
      var vars :| EnvOk(CtxOf(p.m, a.f), types, vars, OnTop(outer, st))
        && Reaches(p, s, Conf(a', next, vars, OnTop(outer, st)), 0);
      assert Conf(a', next, vars, OnTop(outer, st)) == Conf(a2, next, vars, OnTop(outer, st));
    case Branch(d, _, _, _) =>
      assert a'.targets[|a'.targets| - 1 - d] == a'.targets[..|a.targets|][|a.targets| - d]
             == a.targets[|a.targets| - d];
    case Returned(_, _) => assert a'.targets[0] == a'.targets[..|a.targets|][0];
    case _ =>
  }

  /** The next iteration, when there is fuel for it. */
  lemma {:induction false} SimAgain(p: CProg, a: Site, tc: Checker, sig: Sig, body: ExprList, labels: seq<CLabel>,
                                    next: nat,
                                    outer: seq<Word>, vars: map<CVar, Word>, st: S.State, arities: seq<nat>, i: nat,
                                    vars': map<CVar, Word>, st': S.State, s: Config, fuel: nat)
    requires ExprReady(p, a, tc, Loop(sig, body), labels, next, outer, vars, st, arities, i) && body != Nil
    requires EnvOk(CtxOf(p.m, a.f), tc.types, vars', OnTop(outer, st'))
    requires s.status == Running && s.f == a.f && s.callers == a.callers
    requires Reaches(p, s, Conf(a, i + 1, vars', st'), 1)
    ensures var r := LowerExpr(CtxOf(p.m, a.f), Loop(sig, body), tc.types, labels, next);
            Simulated(p, a, tc, r.types, i + |r.code|, outer, s,
                      if fuel == 0 then S.Timeout else S.ExecExpr(p.m, Loop(sig, body), arities, st', fuel - 1), fuel)
    decreases fuel, 0, body, 0
  {
    hide LowerExpr, EnvOk, Reaches, S.ExecExpr, Simulated, Runnable, Lands, SegAt, Fresh, Written, ElabExpr;
    RunnableLive(p, a, tc, labels, outer, vars, st, arities);
    var r := LowerExpr(CtxOf(p.m, a.f), Loop(sig, body), tc.types, labels, next);
    if fuel == 0 {
      SimNow(p, a, tc, r.types, i + |r.code|, outer, s);
    } else {
      LoopReady(p, a, tc, Loop(sig, body), labels, next, outer, vars, st, arities, i, vars', st');
      SimLoopFrom(p, a, tc, sig, body, labels, next, outer, vars', st', arities, i, fuel - 1);
      SimulatedStep(p, a, tc, r.types, i + |r.code|, outer, s, Conf(a, i + 1, vars', st'),
                    S.ExecExpr(p.m, Loop(sig, body), arities, st', fuel - 1), fuel - 1);
    }
  }

  lemma {:induction false} SimLoop(p: CProg, a: Site, tc: Checker, sig: Sig, body: ExprList, labels: seq<CLabel>,
                                   next: nat,
                                   outer: seq<Word>, vars: map<CVar, Word>, st: S.State, arities: seq<nat>, i: nat,
                                     fuel: nat)
    requires ExprReady(p, a, tc, Loop(sig, body), labels, next, outer, vars, st, arities, i)
    ensures var r := LowerExpr(CtxOf(p.m, a.f), Loop(sig, body), tc.types, labels, next);
            Simulated(p, a, tc, r.types, i + |r.code|, outer, Conf(a, i, vars, st),
                      S.ExecExpr(p.m, Loop(sig, body), arities, st, fuel), fuel)
    decreases fuel, 0, body, 2
  {
    hide LowerList, ElabList, EnvOk, Live, EnterLabel, ListReady, Reaches, S.Exec, Simulated, S.ExecExpr, Runnable,
         Lands, Fresh;
    hide Entered, Written;
    RunnableLive(p, a, tc, labels, outer, vars, st, arities);
    if body == Nil {
      SimEmptyLoop(p, a, tc, sig, labels, outer, vars, st, arities, i, fuel);
    } else {
      LoopParts(p, a, tc, sig, body, labels, next, outer, vars, st, arities, i);
      SimLoopFrom(p, a, tc, sig, body, labels, next, outer, vars, st, arities, i, fuel);
      var s := Conf(a, i, vars, st);
      assert a.code[i] == a.code[i..i + 1][0] == LabelDecl(next);
      StepAt(p, s);
      var r := LowerExpr(CtxOf(p.m, a.f), Loop(sig, body), tc.types, labels, next);
      SimulatedLater(p, a, tc, r.types, i + |r.code|, outer, s, Conf(a, i + 1, vars, st), 1,
                     S.ExecExpr(p.m, Loop(sig, body), arities, st, fuel), fuel);
    }
  }

  /** Nothing is written for a loop without a body, and nothing happens in it. */
  lemma SimEmptyLoop(p: CProg, a: Site, tc: Checker, sig: Sig, labels: seq<CLabel>, outer: seq<Word>,
                     vars: map<CVar, Word>, st: S.State, arities: seq<nat>, i: nat, fuel: nat)
    requires Runnable(p, a, tc, labels, outer, vars, st, arities) && NarrowSig(sig)
    ensures Simulated(p, a, tc, tc.types, i, outer, Conf(a, i, vars, st),
                      S.ExecExpr(p.m, Loop(sig, Nil), arities, st, fuel), fuel)
  {
    hide EnvOk, Reaches, Matches, Live, LowerModule, ConcreteModule;
    ExecLoop(p.m, sig, Nil, arities, st, fuel);
    assert st.stack + [] == st.stack;
    SimEmpty(p, a, tc, i, outer, vars, st, fuel);
  }

  // ----- If --------------------------------------------------------------------------------------------------

  /** The statement for an `if`, with the code of its two branches. */
  function IfLowered(ctx: Ctx, types: seq<Type>, sig: Sig, thn: ExprList, hasElse: bool, els: ExprList,
                     labels: seq<CLabel>,
                     next: nat): (r: (Lowered, Lowered))
    ensures var types0 := DropN(types, 1);
            var labels' := InnerLabels(labels, IfLabel, sig, |types0|, next);
            && r.0 == LowerList(ctx, thn, types0, labels', next + 1)
            && r.1 == if hasElse then LowerList(ctx, els, Reset(r.0.types, |types0|), labels', r.0.next)
                      else Lowered([], r.0.types, r.0.next)
  {
    var types0 := DropN(types, 1);
    var labels' := InnerLabels(labels, IfLabel, sig, |types0|, next);
    var t := LowerList(ctx, thn, types0, labels', next + 1);
    (t, if hasElse then LowerList(ctx, els, Reset(t.types, |types0|), labels', t.next)
     else Lowered([], t.types, t.next))
  }

  lemma IfShape(ctx: Ctx, types: seq<Type>, sig: Sig, thn: ExprList, hasElse: bool, els: ExprList, labels: seq<CLabel>,
                next: nat)
    ensures var (t, f) := IfLowered(ctx, types, sig, thn, hasElse, els, labels, next);
            var stmt := IfStmt(Operand(types, 0), t.code, f.code);
            LowerExpr(ctx, If(sig, thn, hasElse, els), types, labels, next)
            == Lowered([stmt] + Decl([stmt], next), Reset(f.types, |DropN(types, 1)|) + sig.results, f.next)
  {
    hide LowerList, Decl, Reset;
  }

  /** The braces of one branch. */
  function ArmSite(a: Site, code: seq<CStmt>, i: nat, end: nat): Site {
    Site(code, At(a.code, i + 1, a.below), a.f, a.callers, a.targets + [At(a.code, end, a.below)])
  }

  /** Jumps out of a branch land outside its braces. */
  lemma ArmLands(a: Site, i: nat, stmt: CStmt, code: seq<CStmt>, labels: seq<CLabel>, kind: Kind, sig: Sig, mark: nat,
                 next: nat, from: nat, to: nat)
    requires Fresh(a, i, labels, next) && SegAt(a.code, i, [stmt] + Decl([stmt], next))
    requires Lands(a, [stmt] + Decl([stmt], next), labels)
    requires stmt.IfStmt? && (stmt.thn == code || stmt.els == code) && DeclaresIn(code, from, to) && next < from
    ensures var a' := ArmSite(a, code, i, i + 1 + |Decl([stmt], next)|);
            Lands(a', code, InnerLabels(labels, kind, sig, mark, next))
              && Fresh(a', 0, InnerLabels(labels, kind, sig, mark, next), from)
  {
    hide Find, UsesList;
    var decl := Decl([stmt], next);
    var end := i + 1 + |decl|;
    var a' := ArmSite(a, code, i, end);
    SegSplit(a.code, i, [stmt], decl);
    LandsSplit(a, [stmt], decl, labels);
    forall k | 0 <= k < |labels| && UsesList(code, labels[k].id)
      ensures Find(At(a'.code, 0, a'.below), labels[k].id) == Some(a.targets[k])
    {
      ArmUses(stmt, code, labels[k].id);
      LandsAt(a, [stmt], labels, k, i + 1);
      FindInner(code, 0, a'.below, labels[k].id);
    }
    if UsesList(code, next) {
      ArmUses(stmt, code, next);
      NotDeclared(stmt, next);
      DeclFound(a, i, labels, next, [stmt], next + 1);
      FindPast(a.code, i + 1, 0, a.below, next);
      FindInner(code, 0, a'.below, next);
    }
    LandsInside(a, a', code, labels, kind, sig, mark, next, At(a.code, end, a.below));
  }

  lemma ArmUses(stmt: CStmt, code: seq<CStmt>, id: nat)
    requires stmt.IfStmt? && (stmt.thn == code || stmt.els == code) && UsesList(code, id)
    ensures UsesList([stmt], id)
  {
  }

  lemma NotDeclared(stmt: CStmt, next: nat)
    requires !stmt.LabelDecl?
    ensures DeclaresIn([stmt], next + 1, next + 1)
  {
  }

  /** One branch of an `if`, from its opening brace to behind the label after the statement. */
  lemma {:induction false} SimArm(p: CProg, a: Site, tc: Checker, tc1: Checker, kind: Kind, sig: Sig, arm: ExprList,
                                  labels: seq<CLabel>, next: nat, from: nat, stmt: CStmt, outer: seq<Word>,
                                  vars: map<CVar, Word>, st: S.State, arities: seq<nat>, i: nat, fuel: nat)
    requires Written(p) && Runnable(p, a, tc, labels, outer, vars, st, arities)
             && (kind == IfLabel || kind == ElseLabel)
    requires Entered(tc, tc1, kind, sig) && NarrowSig(sig) && tc1.types == tc.types && tc1.Top().limit == |tc.types|
             && Live(tc1)
    requires ElabList(CtxOf(p.m, a.f), tc1, arm).Some? && NarrowList(arm) && ConcreteList(arm)
    requires var tc2 := ElabList(CtxOf(p.m, a.f), tc1, arm).value.tc; Live(tc2) ==> tc2.types == tc.types + sig.results
    requires var b := LowerList(CtxOf(p.m, a.f), arm, tc.types, InnerLabels(labels, kind, sig, |tc.types|, next), from);
             stmt.IfStmt? && (stmt.thn == b.code || stmt.els == b.code)
    requires Fresh(a, i, labels, next) && next < from
    requires SegAt(a.code, i, [stmt] + Decl([stmt], next)) && Lands(a, [stmt] + Decl([stmt], next), labels)
    ensures var b := LowerList(CtxOf(p.m, a.f), arm, tc.types, InnerLabels(labels, kind, sig, |tc.types|, next), from);
            var end := i + 1 + |Decl([stmt], next)|;
            var s := Conf(a, i, vars, st).(kont := At(b.code, 0, At(a.code, i + 1, a.below)));
            Simulated(p, a, tc, tc.types + sig.results, end, outer, s,
                      S.ExitLabel(S.Exec(p.m, arm, arities + [|sig.results|], st.(stack := []), fuel), st.stack), fuel)
    decreases fuel, 0, arm, 2
  {
    hide LowerList, ElabList, EnvOk, Live, Entered, Reaches, Exhausts, S.Exec, S.ExitLabel, Matches, Lands, Fresh;
    hide Decl, Reset, FallsThrough, Written, Runnable, NarrowList, ConcreteList;
    RunnableLive(p, a, tc, labels, outer, vars, st, arities);
    var ctx := CtxOf(p.m, a.f);
    InFuncConcrete(p, a.f);
    var labels' := InnerLabels(labels, kind, sig, |tc.types|, next);
    var b := LowerList(ctx, arm, tc.types, labels', from);
    var end := i + 1 + |Decl([stmt], next)|;
    var a' := ArmSite(a, b.code, i, end);
    var s := Conf(a, i, vars, st).(kont := At(b.code, 0, At(a.code, i + 1, a.below)));
    var inner := st.(stack := []);
    ListDeclares(ctx, arm, tc.types, labels', from);
    ArmLands(a, i, stmt, b.code, labels, kind, sig, |tc.types|, next, from, b.next);
    EnterLabelSite(p, a, a', tc, tc1, kind, sig, labels, next, outer, vars, st, arities, At(a.code, end, a.below));
    assert SegAt(b.code, 0, b.code);
    SimList(p, a', tc1, arm, labels', from, outer + st.stack, vars, inner, arities + [|sig.results|], 0, fuel);
    assert s == Conf(a', 0, vars, inner);
    BodyTypes(ctx, tc, tc1, arm, sig.results, labels', from);
    if !Exhausts(p, s) {
      var o := S.Exec(p.m, arm, arities + [|sig.results|], inner, fuel);
      if o.Normal? {
        RunsThrough(p.m, arm, arities + [|sig.results|], inner, fuel);
        MatchesNormal(p, a', tc1, b.types, |b.code|, outer + st.stack, s, o, fuel);
        ArmEnds(p, a, a', tc.types + sig.results, i, stmt, next, s, OnTop(outer + st.stack, o.state));
      }
      ExitSimulated(p, a, a', tc, tc1, kind, sig, end, outer, st.stack, b.types, |b.code|, s, o, fuel);
    }
  }

  lemma ArmEnds(p: CProg, a: Site, a': Site, types: seq<Type>, i: nat, stmt: CStmt, next: nat, s: Config, st: S.State)
    requires a.f < |p.m.funcs| && a'.f == a.f && a'.callers == a.callers && a'.below == At(a.code, i + 1, a.below)
    requires FallsThrough(p, a', types, |a'.code|, s, st)
    requires SegAt(a.code, i, [stmt] + Decl([stmt], next))
    ensures FallsThrough(p, a, types, i + 1 + |Decl([stmt], next)|, s, st)
  {
    hide FallsThrough, UsesList;
    SegSplit(a.code, i, [stmt], Decl([stmt], next));
    FallsOut(p, a, a', types, i + 1, s, st);
    FallsOver(p, a, types, i + 1, Decl([stmt], next), s, st);
  }

  lemma PoppedRunnable(p: CProg, a: Site, tc: Checker, labels: seq<CLabel>, outer: seq<Word>, vars: map<CVar, Word>,
                       st: S.State, arities: seq<nat>)
    requires Runnable(p, a, tc, labels, outer, vars, st, arities) && PopSignature(tc, [I32]).Some?
    ensures st.stack != [] && tc.Top().limit + 1 <= |tc.types| && Popped(tc) == PopSignature(tc, [I32]).value
    ensures Runnable(p, a, Popped(tc), labels, outer, vars, st.(stack := S.Under(st.stack, 1)), arities)
  {
    hide EnvOk, LowerModule, ConcreteModule, Live, PopSignature, Nested;
    KeyRead(p, a.f, tc, outer, Conf(a, 0, vars, st), st);
  }

  /** The true branch that ends at `else` ends on the results, like any other. */
  lemma ElseEndTypes(tc: Checker, tc1: Checker, tc2: Checker, sig: Sig)
    requires Entered(tc, tc1, IfLabel, sig) && TypeChecker.Frame(tc1, tc2) && OnElse(tc2).Some?
    requires tc1.types == tc.types && tc1.Top().limit == |tc.types| && Live(tc2)
    ensures tc2.types == tc.types + sig.results
  {
    hide Nested;
    assert PlainLabel(tc2.labels[|tc2.labels| - 1]);
    PopConcrete(tc2, tc2.Top().results);
    assert tc2.types[..|tc.types|] == tc1.types[..|tc.types|] == tc.types;
  }

  lemma ThenTypes(ctx: Ctx, tc: Checker, sig: Sig, thn: ExprList, hasElse: bool, els: ExprList)
    requires Live(tc) && NarrowSig(sig) && Concrete(sig.results) && ElabExpr(ctx, tc, If(sig, thn, hasElse, els)).Some?
    ensures PopSignature(tc, [I32]).Some? && OnIf(tc, sig).Some? && ElabList(ctx, OnIf(tc, sig).value, thn).Some?
    ensures var tc0, tc2 := Popped(tc), ElabList(ctx, OnIf(tc, sig).value, thn).value.tc;
            Live(tc2) ==> tc2.types == tc0.types + sig.results
  {
    hide Nested, ElabList, OnIf, OnEnd, OnElse, PopSignature, Live;
    IfStack(ctx, tc, sig, thn, hasElse, els);
    RunnableStack(tc);
    var tc0, tc1 := PopSignature(tc, [I32]).value, OnIf(tc, sig).value;
    ListFrame(ctx, tc1, thn);
    var tc2 := ElabList(ctx, tc1, thn).value.tc;
    if Live(tc2) {
      LiveFacts(tc2);
      if hasElse {
        C.IfElseChecked(ctx, tc, sig, thn, els);
        ElseEndTypes(tc0, tc1, tc2, sig);
      } else {
        C.IfChecked(ctx, tc, sig, thn, els);
        LeftTypes(tc0, tc1, tc2, OnEnd(tc2).value, IfLabel, sig);
      }
    }
  }

  lemma RunnableStack(tc: Checker)
    requires Live(tc)
    ensures Wf(tc) && !tc.Top().unreachable
  {
  }

  lemma ElseTypes(ctx: Ctx, tc: Checker, sig: Sig, thn: ExprList, els: ExprList)
    requires Live(tc) && NarrowSig(sig) && Concrete(sig.results) && ElabExpr(ctx, tc, If(sig, thn, true, els)).Some?
    requires PopSignature(tc, [I32]).Some? && OnIf(tc, sig).Some? && ElabList(ctx, OnIf(tc, sig).value, thn).Some?
    requires OnElse(ElabList(ctx, OnIf(tc, sig).value, thn).value.tc).Some?
    requires ElabList(ctx, OnElse(ElabList(ctx, OnIf(tc, sig).value, thn).value.tc).value, els).Some?
    ensures var tc0, tc3 := Popped(tc), OnElse(ElabList(ctx, OnIf(tc, sig).value, thn).value.tc).value;
            var tc4 := ElabList(ctx, tc3, els).value.tc;
            Live(tc4) ==> tc4.types == tc0.types + sig.results
  {
    hide Nested, ElabList, OnIf, OnEnd, OnElse, PopSignature, Live;
    RunnableStack(tc);
    C.IfElseChecked(ctx, tc, sig, thn, els);
    ElseStack(ctx, tc, sig, thn, els);
    var tc0 := Popped(tc);
    var tc3 := OnElse(ElabList(ctx, OnIf(tc, sig).value, thn).value.tc).value;
    var tc4 := ElabList(ctx, tc3, els).value.tc;
    ListFrame(ctx, tc3, els);
    if Live(tc4) {
      LiveFacts(tc4);
      LeftTypes(tc0, tc3, tc4, OnEnd(tc4).value, ElseLabel, sig);
    }
  }

  lemma ExecIf(m: Module, sig: Sig, thn: ExprList, hasElse: bool, els: ExprList, arities: seq<nat>, st: S.State,
               fuel: nat)
    requires sig.params == [] && st.stack != []
    ensures var base := S.Under(st.stack, 1);
            var inner := st.(stack := []);
            S.ExecExpr(m, If(sig, thn, hasElse, els), arities, st, fuel)
            == S.ExitLabel(
                 if S.Top(st.stack) % TWO_32 != 0 then S.Exec(m, thn, arities + [|sig.results|], inner, fuel)
                 else if hasElse then S.Exec(m, els, arities + [|sig.results|], inner, fuel)
                 else S.Normal(inner), base)
  {
    hide S.Exec, S.ExitLabel;
    var rest := S.Under(st.stack, 1);
    assert S.Take(rest, 0) == [] && S.Under(rest, 0) == rest;
  }

  /** From the condition into a branch. */
  lemma ArmTaken(p: CProg, a: Site, tc: Checker, types: seq<Type>, end: nat, outer: seq<Word>, s: Config, s1: Config,
                 o: S.Outcome, fuel: nat)
    requires a.f < |p.m.funcs| && Live(tc) && tc.Top().limit + 1 <= |tc.types|
    requires Reaches(p, s, s1, 1) && s1.f == s.f && s1.callers == s.callers
    requires Simulated(p, a, Popped(tc), types, end, outer, s1, o, fuel)
    ensures Simulated(p, a, tc, types, end, outer, s, o, fuel)
  {
    hide Simulated, Reaches;
    SimulatedLater(p, a, Popped(tc), types, end, outer, s, s1, 1, o, fuel);
    MatchesFrom(p, a, tc, Popped(tc), types, end, outer, s, o, fuel);
  }

  /** No `else`: past the statement with the operand stack as it is. */
  lemma SimSkip(p: CProg, a: Site, tc: Checker, types: seq<Type>, outer: seq<Word>, vars: map<CVar, Word>, st: S.State,
                st0: S.State, i: nat, stmt: CStmt, next: nat, fuel: nat)
    requires InFunc(p, a.f) && EnvOk(CtxOf(p.m, a.f), types, vars, OnTop(outer, st0))
    requires st0.locals == st.locals && st0.globals == st.globals
    requires var s := Conf(a, i, vars, st); Reaches(p, s, s.(kont := At([], 0, At(a.code, i + 1, a.below))), 1)
    requires SegAt(a.code, i, [stmt] + Decl([stmt], next))
    ensures Matches(p, a, tc, types, i + 1 + |Decl([stmt], next)|, outer, Conf(a, i, vars, st),
                    S.ExitLabel(S.Normal(st0.(stack := [])), st0.stack), fuel)
  {
    hide EnvOk, Reaches, FallsThrough, LowerModule, ConcreteModule, UsesList;
    FallOut(p, a, tc, types, i, outer, vars, st, st0, fuel);
    SegSplit(a.code, i, [stmt], Decl([stmt], next));
    FallsOver(p, a, types, i + 1, Decl([stmt], next), Conf(a, i, vars, st), OnTop(outer, st0));
    assert st0.stack + [] == st0.stack;
  }

  /** An `if` taken apart. */
  lemma IfReady(p: CProg, a: Site, tc: Checker, sig: Sig, thn: ExprList, hasElse: bool, els: ExprList,
                labels: seq<CLabel>,
                next: nat, outer: seq<Word>, vars: map<CVar, Word>, st: S.State, arities: seq<nat>, i: nat)
    requires ExprReady(p, a, tc, If(sig, thn, hasElse, els), labels, next, outer, vars, st, arities, i)
    ensures Written(p) && Runnable(p, a, tc, labels, outer, vars, st, arities) && InFunc(p, a.f)
    ensures NarrowSig(sig) && Concrete(sig.results) && NarrowList(thn) && ConcreteList(thn)
    ensures hasElse ==> NarrowList(els) && ConcreteList(els)
    ensures ElabExpr(CtxOf(p.m, a.f), tc, If(sig, thn, hasElse, els)).Some?
    ensures var (t, f) := IfLowered(CtxOf(p.m, a.f), tc.types, sig, thn, hasElse, els, labels, next);
            var stmt := IfStmt(Operand(tc.types, 0), t.code, f.code);
            var code := [stmt] + Decl([stmt], next);
            && LowerExpr(CtxOf(p.m, a.f), If(sig, thn, hasElse, els), tc.types, labels, next)
               == Lowered(code, Popped(tc).types + sig.results, f.next)
            && SegAt(a.code, i, code) && Lands(a, code, labels) && Fresh(a, i, labels, next)
  {
    hide LowerList, LowerExpr, ElabExpr, Decl, Reset, Lands, Fresh, SegAt, Written, Runnable, LowerModule,
         ConcreteModule, Live;
    RunnableLive(p, a, tc, labels, outer, vars, st, arities);
    var ctx := CtxOf(p.m, a.f);
    InFuncConcrete(p, a.f);
    IfShape(ctx, tc.types, sig, thn, hasElse, els, labels, next);
    TypesIf(ctx, tc, sig, thn, hasElse, els, labels, next);
    IfTypes(ctx, tc, sig, thn, hasElse, els);
  }

  lemma IfGuard(p: CProg, a: Site, tc: Checker, labels: seq<CLabel>, outer: seq<Word>, vars: map<CVar, Word>,
                st: S.State,
                arities: seq<nat>, i: nat, stmt: CStmt, next: nat)
    requires Runnable(p, a, tc, labels, outer, vars, st, arities) && PopSignature(tc, [I32]).Some?
    requires stmt.IfStmt? && stmt.cond == Operand(tc.types, 0) && SegAt(a.code, i, [stmt] + Decl([stmt], next))
    ensures st.stack != []
    ensures var s := Conf(a, i, vars, st);
            Reaches(p, s, s.(kont := At(if S.Top(st.stack) % TWO_32 != 0 then stmt.thn
                                        else stmt.els, 0, At(a.code, i + 1, a.below))), 1)
  {
    hide EnvOk, LowerModule, ConcreteModule, Live, PopSignature, Reaches, Decl;
    SegSplit(a.code, i, [stmt], Decl([stmt], next));
    assert a.code[i] == a.code[i..i + 1][0] == stmt;
    GuardStep(p, a, tc, outer, vars, st, i, stmt.thn, stmt.els);
  }

  /** The false branch is written on the same type stack as the true one. */
  lemma ElseFrom(p: CProg, a: Site, tc: Checker, sig: Sig, thn: ExprList, els: ExprList, labels: seq<CLabel>, next: nat)
    requires InFunc(p, a.f) && Live(tc) && NarrowSig(sig) && Concrete(sig.results) && NarrowList(thn)
             && ConcreteList(thn)
    requires ElabExpr(CtxOf(p.m, a.f), tc, If(sig, thn, true, els)).Some?
    ensures var (t, f) := IfLowered(CtxOf(p.m, a.f), tc.types, sig, thn, true, els, labels, next);
            var types0 := Popped(tc).types;
            && next < t.next
            && f == LowerList(CtxOf(p.m, a.f), els, types0, InnerLabels(labels, ElseLabel, sig, |types0|, next), t.next)
  {
    hide LowerList, ElabExpr, ElabList, Reset, LowerModule, ConcreteModule, Live, OnIf, Nested, PopSignature,
         NarrowList, ConcreteList;
    var ctx, tc0 := CtxOf(p.m, a.f), Popped(tc);
    InFuncConcrete(p, a.f);
    IfStack(ctx, tc, sig, thn, true, els);
    var labels' := InnerLabels(labels, IfLabel, sig, |tc0.types|, next);
    ListDeclares(ctx, thn, tc0.types, labels', next + 1);
    ThenTypes(ctx, tc, sig, thn, true, els);
    BodyTypes(ctx, tc0, OnIf(tc, sig).value, thn, sig.results, labels', next + 1);
  }

  lemma NoElseTypes(p: CProg, a: Site, tc: Checker, sig: Sig, thn: ExprList, els: ExprList)
    requires a.f < |p.m.funcs| && Live(tc) && ElabExpr(CtxOf(p.m, a.f), tc, If(sig, thn, false, els)).Some?
    ensures Popped(tc).types + sig.results == Popped(tc).types
  {
    hide ElabList, ElabExpr, OnIf, OnEnd, PopSignature, Nested, Entered, C.Exits;
    C.IfChecked(CtxOf(p.m, a.f), tc, sig, thn, els);
  }

  lemma RunnableEnv(p: CProg, a: Site, tc: Checker, labels: seq<CLabel>, outer: seq<Word>, vars: map<CVar, Word>,
                    st: S.State, arities: seq<nat>)
    requires Runnable(p, a, tc, labels, outer, vars, st, arities)
    ensures InFunc(p, a.f) && EnvOk(CtxOf(p.m, a.f), tc.types, vars, OnTop(outer, st))
  {
  }

  lemma SimulatedBy(p: CProg, a: Site, tc: Checker, types: seq<Type>, next: nat, outer: seq<Word>,
                    s: Config, o: S.Outcome, fuel: nat)
    requires a.f < |p.m.funcs| && Matches(p, a, tc, types, next, outer, s, o, fuel)
    ensures Simulated(p, a, tc, types, next, outer, s, o, fuel)
  {
  }

  lemma {:induction false} SimIf(p: CProg, a: Site, tc: Checker, sig: Sig, thn: ExprList, hasElse: bool, els: ExprList,
                                 labels: seq<CLabel>, next: nat, outer: seq<Word>, vars: map<CVar, Word>, st: S.State,
                                 arities: seq<nat>, i: nat, fuel: nat)
    requires ExprReady(p, a, tc, If(sig, thn, hasElse, els), labels, next, outer, vars, st, arities, i)
    ensures var r := LowerExpr(CtxOf(p.m, a.f), If(sig, thn, hasElse, els), tc.types, labels, next);
            Simulated(p, a, tc, r.types, i + |r.code|, outer, Conf(a, i, vars, st),
                      S.ExecExpr(p.m, If(sig, thn, hasElse, els), arities, st, fuel), fuel)
    decreases fuel, 0, If(sig, thn, hasElse, els), -1
  {
    hide LowerList, LowerExpr, ElabList, ElabExpr, EnvOk, Live, Entered, OnIf, OnElse, Reaches, Exhausts, S.Exec,
         S.ExitLabel;
    hide Decl, Reset, Written, Runnable, PopSignature, Simulated, S.ExecExpr, Lands, Fresh, LowerModule, ConcreteModule;
    RunnableLive(p, a, tc, labels, outer, vars, st, arities);
    var ctx := CtxOf(p.m, a.f);
    var (t, f) := IfLowered(ctx, tc.types, sig, thn, hasElse, els, labels, next);
    var stmt := IfStmt(Operand(tc.types, 0), t.code, f.code);
    var s := Conf(a, i, vars, st);
    var end := i + 1 + |Decl([stmt], next)|;
    IfReady(p, a, tc, sig, thn, hasElse, els, labels, next, outer, vars, st, arities, i);
    IfStack(ctx, tc, sig, thn, hasElse, els);
    ThenTypes(ctx, tc, sig, thn, hasElse, els);
    PoppedRunnable(p, a, tc, labels, outer, vars, st, arities);
    ExecIf(p.m, sig, thn, hasElse, els, arities, st, fuel);
    IfGuard(p, a, tc, labels, outer, vars, st, arities, i, stmt, next);
    var tc0, tc1, st0 := Popped(tc), OnIf(tc, sig).value, st.(stack := S.Under(st.stack, 1));
    var types := tc0.types + sig.results;
    if S.Top(st.stack) % TWO_32 != 0 {
      SimArm(p, a, tc0, tc1, IfLabel, sig, thn, labels, next, next + 1, stmt, outer, vars, st0, arities, i, fuel);
      ArmTaken(p, a, tc, types, end, outer, s, s.(kont := At(t.code, 0, At(a.code, i + 1, a.below))),
               S.ExitLabel(S.Exec(p.m, thn, arities + [|sig.results|], st0.(stack := []), fuel), st0.stack), fuel);
    } else if hasElse {
      ElseStack(ctx, tc, sig, thn, els);
      ElseTypes(ctx, tc, sig, thn, els);
      var tc3 := OnElse(ElabList(ctx, tc1, thn).value.tc).value;
      ElseFrom(p, a, tc, sig, thn, els, labels, next);
      SimArm(p, a, tc0, tc3, ElseLabel, sig, els, labels, next, t.next, stmt, outer, vars, st0, arities, i, fuel);
      ArmTaken(p, a, tc, types, end, outer, s, s.(kont := At(f.code, 0, At(a.code, i + 1, a.below))),
               S.ExitLabel(S.Exec(p.m, els, arities + [|sig.results|], st0.(stack := []), fuel), st0.stack), fuel);
    } else {
      NoElseTypes(p, a, tc, sig, thn, els);
      RunnableEnv(p, a, tc0, labels, outer, vars, st0, arities);
      SimSkip(p, a, tc, types, outer, vars, st, st0, i, stmt, next, fuel);
      SimulatedBy(p, a, tc, types, end, outer, s, S.ExitLabel(S.Normal(st0.(stack := [])), st0.stack), fuel);
    }
  }

  // ----- Calls -------------------------------------------------------------------------------------------------

  lemma {:induction false} SimCall(p: CProg, a: Site, tc: Checker, g: nat, labels: seq<CLabel>, next: nat,
                                   outer: seq<Word>, vars: map<CVar, Word>, st: S.State, arities: seq<nat>, i: nat,
                                     fuel: nat)
    requires ExprReady(p, a, tc, Call(g), labels, next, outer, vars, st, arities, i)
    ensures var r := LowerExpr(CtxOf(p.m, a.f), Call(g), tc.types, labels, next);
            Simulated(p, a, tc, r.types, i + |r.code|, outer, Conf(a, i, vars, st),
                      S.ExecExpr(p.m, Call(g), arities, st, fuel), fuel)
    decreases fuel, 0, Call(g), -1
  {
    hide EnvOk, Live, Reaches, Exhausts, LowerCall, OnCall, S.CallFunc, CallMatches, LowerModule, ConcreteModule;
    hide Written, SegAt, Lands, Fresh, Matches, FitsAll, Runnable;
    RunnableLive(p, a, tc, labels, outer, vars, st, arities);
    RunnableEnv(p, a, tc, labels, outer, vars, st, arities);
    var ctx, s := CtxOf(p.m, a.f), Conf(a, i, vars, st);
    CallEnter(p, a, tc, g, outer, vars, st, i);
    CallSize(ctx, tc.types, g);
    var (code, types) := LowerCall(ctx, tc.types, g);
    if fuel == 0 {
      SimNow(p, a, tc, types, i + 1, outer, s);
    } else if !Exhausts(p, s) {
      var args := S.Take(st.stack, |p.m.funcs[g].sig.params|);
      var callers := a.callers + [Caller(a.f, At(a.code, i + 1, a.below), vars, st.locals, code[0].into)];
      var t := CalleeStart(p, g, args, st.globals, callers);
      EnvGlobals(ctx, tc.types, vars, OnTop(outer, st));
      SimFunc(p, g, args, st.globals, callers, fuel - 1);
      if Exhausts(p, t) {
        ExhaustsLater(p, s, t, 1);
      } else {
        CallDone(p, a, tc, g, outer, vars, st, i, s, t, S.CallFunc(p.m, g, args, st.globals, fuel - 1), fuel);
      }
    }
  }

  lemma CallSize(ctx: Ctx, types: seq<Type>, g: nat)
    ensures |LowerCall(ctx, types, g).0| == 1
  {
  }

  lemma EnvGlobals(ctx: Ctx, types: seq<Type>, vars: map<CVar, Word>, st: S.State)
    requires EnvOk(ctx, types, vars, st)
    ensures FitsAll(GlobalTypes(ctx.globals), st.globals)
  {
  }

  /** A call's outcome from the callee's. */
  lemma CallDone(p: CProg, a: Site, tc: Checker, g: nat, outer: seq<Word>, vars: map<CVar, Word>, st: S.State, i: nat,
                 s: Config, t: Config, o: S.Outcome, fuel: nat)
    requires Written(p) && InFunc(p, a.f) && Live(tc) && OnCall(CtxOf(p.m, a.f), tc, g).Some?
             && |outer| == tc.Top().limit
    requires EnvOk(CtxOf(p.m, a.f), tc.types, vars, OnTop(outer, st))
    requires g < |p.m.funcs| && |p.m.funcs[g].sig.params| <= |st.stack|
             && tc.Top().limit + |p.m.funcs[g].sig.params| <= |tc.types|
    requires LowerCall(CtxOf(p.m, a.f), tc.types, g).0[0].CallStmt?
    requires t.callers == a.callers + [Caller(a.f, At(a.code, i + 1, a.below), vars, st.locals,
                                              LowerCall(CtxOf(p.m, a.f), tc.types, g).0[0].into)]
    requires s == Conf(a, i, vars, st) && Reaches(p, s, t, 1) && 0 < fuel && CallMatches(p, g, t, o, fuel - 1)
    ensures var o' := if o.Returned? then S.Normal(S.State(st.locals,
                                                           S.Under(st.stack, |p.m.funcs[g].sig.params|) + o.vals,
                                                             o.globals)) else o;
            Matches(p, a, tc, LowerCall(CtxOf(p.m, a.f), tc.types, g).1, i + 1, outer, s, o', fuel)
  {
    hide EnvOk, Live, Reaches, OnCall, LowerModule, ConcreteModule, Written, LowerCall;
    match o
    case Returned(vals, gs) =>
      var vars', ls :| EnvOk(CtxOf(p.m, g), p.m.funcs[g].sig.results, vars', S.State(ls, vals, gs))
        && Reaches(p, t, Config(Running, g, Stop, vars', ls, gs, t.callers), 0);
      var u := Config(Running, g, Stop, vars', ls, gs, t.callers);
      WrittenFunc(p, g);
      IntoIs(CtxOf(p.m, a.f), tc.types, g);
      CallLeave(p, a, tc, g, outer, vars, st, i, LowerCall(CtxOf(p.m, a.f), tc.types, g).0[0].into, vals, gs, vars',
                ls);
      var st' := S.State(st.locals, S.Under(st.stack, |p.m.funcs[g].sig.params|) + vals, gs);
      ReachesTrans(p, s, t, u, 1, 0);
      FallsLater(p, a, LowerCall(CtxOf(p.m, a.f), tc.types, g).1, i + 1, s, u, 1, OnTop(outer, st'));
    case Trapped(kind) => TrapsLater(p, s, t, 1, kind);
    case Timeout => LastsLater(p, s, t, 1, fuel - 1);
    case _ =>
  }

  lemma IntoIs(ctx: Ctx, types: seq<Type>, g: nat)
    requires g < |ctx.funcs| && |ctx.funcs[g].params| <= |types|
    ensures |LowerCall(ctx, types, g).0| == 1 && LowerCall(ctx, types, g).0[0].CallStmt?
    ensures LowerCall(ctx, types, g).0[0].into
         == if ctx.funcs[g].results == [] then None
            else Some(StackVar(|types| - |ctx.funcs[g].params|, ctx.funcs[g].results[0]))
  {
  }

  lemma FallsLater(p: CProg, a: Site, types: seq<Type>, next: nat, s: Config, t: Config, k: nat, st: S.State)
    requires a.f < |p.m.funcs| && Reaches(p, s, t, k) && FallsThrough(p, a, types, next, t, st)
    ensures FallsThrough(p, a, types, next, s, st)
  {
    hide EnvOk, Reaches;
    var vars :| EnvOk(CtxOf(p.m, a.f), types, vars, st) && Reaches(p, t, Conf(a, next, vars, st), 0);
    ReachesTrans(p, s, t, Conf(a, next, vars, st), k, 0);
    ReachesLess(p, s, Conf(a, next, vars, st), k, 0);
  }

  // ----- Functions ---------------------------------------------------------------------------------------------

  /** The braces of a function; its label is at their end. */
  function FuncSite(p: CProg, f: nat, callers: seq<Caller>): Site
    requires f < |p.c.funcs|
  {
    var code := p.c.funcs[f].body;
    Site(code, Stop, f, callers, [At(code, |code|, Stop)])
  }

  const FUNC_LABEL: nat := 0

  function FuncLabels(p: CProg, f: nat): seq<CLabel>
    requires f < |p.m.funcs|
  {
    [CLabel(false, p.m.funcs[f].sig.results, 0, FUNC_LABEL)]
  }

  /** A written function taken apart. */
  lemma FuncReady(p: CProg, f: nat, args: seq<Word>, globals: seq<Word>, callers: seq<Caller>)
    requires Written(p) && f < |p.m.funcs| == |p.c.funcs|
    requires FitsAll(p.m.funcs[f].sig.params, args) && FitsAll(GlobalTypes(p.m.globals), globals)
    ensures var fn, ctx := p.m.funcs[f], CtxOf(p.m, f);
            var tc0 := BeginFunction(fn.sig.results);
            var st := S.State(args + Zeros(LocalCount(fn.decls)), [], globals);
            var b := LowerList(ctx, fn.body, tc0.types, FuncLabels(p, f), 1);
            && p.c.funcs[f].body == b.code + Decl(b.code, FUNC_LABEL)
            && ListReady(p, FuncSite(p, f, callers), tc0, fn.body, FuncLabels(p, f), 1, [], map[], st,
                         [|fn.sig.results|], 0)
            && Live(tc0)
  {
    hide LowerList, ElabList, ConcreteList, NarrowList, UsesList, Find, EndFunction, ReturnInstrs, LocalTypes,
         ElabFunc, LocalCount;
    var fn, ctx := p.m.funcs[f], CtxOf(p.m, f);
    var tc0 := BeginFunction(fn.sig.results);
    WrittenFunc(p, f);
    CalleeFits(p, f, args);
    assert ConcreteFunc(fn);
    var b := LowerList(ctx, fn.body, tc0.types, FuncLabels(p, f), 1);
    var a := FuncSite(p, f, callers);
    assert a.code == b.code + Decl(b.code, FUNC_LABEL);
    FuncElab(p.m, f);
    ListDeclares(ctx, fn.body, tc0.types, FuncLabels(p, f), 1);
    FuncLands(a, b.code, b.next, fn.sig.results);
    assert a.code[0..0 + |b.code|] == b.code;
    FuncEnv(p, f, args, globals);
    assert OnTop([], S.State(args + Zeros(LocalCount(fn.decls)), [], globals)).stack == [];
  }

  lemma FuncElab(m: Module, f: nat)
    requires f < |m.funcs| && ElabFunc(m, f).Some?
    ensures var r := ElabList(CtxOf(m, f), BeginFunction(m.funcs[f].sig.results), m.funcs[f].body);
            r.Some? && r.value.tc.labels != [] && EndFunction(r.value.tc).Some?
  {
    hide ElabList, EndFunction, ReturnInstrs;
  }

  lemma FuncEnv(p: CProg, f: nat, args: seq<Word>, globals: seq<Word>)
    requires InFunc(p, f) && FitsAll(p.m.funcs[f].sig.params, args) && FitsAll(GlobalTypes(p.m.globals), globals)
    ensures EnvOk(CtxOf(p.m, f), [], map[], S.State(args + Zeros(LocalCount(p.m.funcs[f].decls)), [], globals))
  {
    hide LowerModule, ConcreteModule, FitsAll;
    CalleeFits(p, f, args);
    NoneFits();
  }

  lemma NoneFits()
    ensures FitsAll([], [])
  {
  }

  lemma FuncLands(a: Site, code: seq<CStmt>, next: nat, results: seq<Type>)
    requires a.code == code + Decl(code, FUNC_LABEL) && a.below == Stop && a.targets == [At(a.code, |a.code|, Stop)]
    requires DeclaresIn(code, 1, next)
    ensures Lands(a, code, [CLabel(false, results, 0, FUNC_LABEL)])
            && Fresh(a, 0, [CLabel(false, results, 0, FUNC_LABEL)], 1)
  {
    hide UsesList, Find;
    if UsesList(code, FUNC_LABEL) {
      assert a.code[0..0 + |code + [LabelDecl(FUNC_LABEL)]|] == code + [LabelDecl(FUNC_LABEL)];
      DeclFound(a, 0, [], FUNC_LABEL, code, next);
    }
  }

  /** Out of the function's braces, to the point where it returns. */
  lemma FuncEnds(p: CProg, f: nat, callers: seq<Caller>, s: Config, st: S.State)
    requires f < |p.m.funcs| == |p.c.funcs|
    requires var a := FuncSite(p, f, callers);
             FallsThrough(p, a, p.m.funcs[f].sig.results, |a.code|, s, st)
    requires s.callers == callers
    ensures CallReturned(p, f, s, st.stack, st.globals)
  {
    hide EnvOk, Reaches;
    var a, results := FuncSite(p, f, callers), p.m.funcs[f].sig.results;
    var vars :| EnvOk(CtxOf(p.m, f), results, vars, st) && Reaches(p, s, Conf(a, |a.code|, vars, st), 0);
    var t := Config(Running, f, Stop, vars, st.locals, st.globals, callers);
    StepOut(p, Conf(a, |a.code|, vars, st));
    ReachesTrans(p, s, Conf(a, |a.code|, vars, st), t, 0, 1);
    ReachesLess(p, s, t, 1, 0);
    assert st == S.State(st.locals, st.stack, st.globals);
    assert Reaches(p, s, Config(Running, f, Stop, vars, st.locals, st.globals, s.callers), 0);
  }

  lemma FuncEndTypes(tc0: Checker, tc: Checker, results: seq<Type>)
    requires tc0 == BeginFunction(results) && Live(tc) && tc.labels == tc0.labels && EndFunction(tc).Some?
    ensures tc.types == results
  {
    hide Nested;
    assert PlainLabel(tc.labels[0]);
    PopConcrete(tc, results);
  }

  /** A function's outcome from its body's outcome. */
  lemma FuncOutcome(p: CProg, f: nat, callers: seq<Caller>, types: seq<Type>, i: nat, s: Config, o: S.Outcome,
                    fuel: nat)
    requires f < |p.m.funcs| == |p.c.funcs| && s.f == f && s.callers == callers
    requires var a := FuncSite(p, f, callers);
             && Matches(p, a, BeginFunction(p.m.funcs[f].sig.results), types, i, [], s, o, fuel)
             && (o.Normal? ==> types == p.m.funcs[f].sig.results && i <= |a.code| && |a.code[i..]| <= 1
                               && (a.code[i..] != [] ==> a.code[i].LabelDecl?))
    ensures var n := |p.m.funcs[f].sig.results|;
            var o' := match o {
              case Normal(st) => if |st.stack| == n then S.Returned(st.stack, st.globals) else S.Stuck
              case Branch(d, vals, _, gs) => if d == 0 then S.Returned(vals, gs) else S.Stuck
              case _ => o
            };
            CallMatches(p, f, s, o', fuel)
  {
    hide EnvOk, Reaches, FallsThrough, Arrives, CallReturned;
    var a, results := FuncSite(p, f, callers), p.m.funcs[f].sig.results;
    match o
    case Normal(st) =>
      assert OnTop([], st) == st;
      FallsOver(p, a, results, i, a.code[i..], s, st);
      FallsHeight(p, a, results, |a.code|, s, st);
      FuncEnds(p, f, callers, s, st);
    case Branch(d, vals, ls, gs) =>
      var none: seq<Word> := [];
      assert none[..0] + vals == vals;
      assert LabelTypes(BeginFunction(results), 0) == results;
      ArrivesFalls(p, a, results, |a.code|, s, S.State(ls, vals, gs));
      FuncEnds(p, f, callers, s, S.State(ls, vals, gs));
    case Returned(vals, gs) =>
      var ls :| Arrives(p, CtxOf(p.m, f), results, s, a.targets[0], S.State(ls, vals, gs));
      ArrivesFalls(p, a, results, |a.code|, s, S.State(ls, vals, gs));
      FuncEnds(p, f, callers, s, S.State(ls, vals, gs));
    case _ =>
  }

  lemma FallsHeight(p: CProg, a: Site, types: seq<Type>, next: nat, s: Config, st: S.State)
    requires a.f < |p.m.funcs| && FallsThrough(p, a, types, next, s, st)
    ensures |st.stack| == |types|
  {
    hide Reaches;
  }

  lemma {:induction false} SimFunc(p: CProg, f: nat, args: seq<Word>, globals: seq<Word>, callers: seq<Caller>,
                                   fuel: nat)
    requires Written(p) && f < |p.m.funcs| == |p.c.funcs|
    requires FitsAll(p.m.funcs[f].sig.params, args) && FitsAll(GlobalTypes(p.m.globals), globals)
    ensures var s := CalleeStart(p, f, args, globals, callers);
            Exhausts(p, s) || CallMatches(p, f, s, S.CallFunc(p.m, f, args, globals, fuel), fuel)
    decreases fuel, 1, Nil, 0
  {
    hide LowerList, ElabList, EnvOk, Live, Reaches, Exhausts, Matches, ListReady, S.Exec, Decl, CallMatches,
         EndFunction;
    hide LowerModule, ConcreteModule, FitsAll, ElabFunc, LocalTypes;
    var fn, ctx := p.m.funcs[f], CtxOf(p.m, f);
    var tc0 := BeginFunction(fn.sig.results);
    var st := S.State(args + Zeros(LocalCount(fn.decls)), [], globals);
    var a, labels := FuncSite(p, f, callers), FuncLabels(p, f);
    var b := LowerList(ctx, fn.body, tc0.types, labels, 1);
    var s := CalleeStart(p, f, args, globals, callers);
    FuncReady(p, f, args, globals, callers);
    SimList(p, a, tc0, fn.body, labels, 1, [], map[], st, [|fn.sig.results|], 0, fuel);
    assert s == Conf(a, 0, map[], st);
    if !Exhausts(p, s) {
      var o := S.Exec(p.m, fn.body, [|fn.sig.results|], st, fuel);
      if o.Normal? {
        RunsThrough(p.m, fn.body, [|fn.sig.results|], st, fuel);
        FuncTypes(p, f);
      }
      DeclTail(b.code, FUNC_LABEL);
      FuncOutcome(p, f, callers, b.types, |b.code|, s, o, fuel);
    }
  }

  lemma DeclTail(code: seq<CStmt>, id: nat)
    ensures var all := code + Decl(code, id);
            all[|code|..] == Decl(code, id) && |Decl(code, id)| <= 1
              && (Decl(code, id) != [] ==> all[|code|].LabelDecl?)
  {
    hide UsesList;
  }

  lemma FuncTypes(p: CProg, f: nat)
    requires Written(p) && f < |p.m.funcs| && !HasJump(p.m.funcs[f].body)
    requires Live(BeginFunction(p.m.funcs[f].sig.results))
    ensures var fn := p.m.funcs[f];
            LowerList(CtxOf(p.m, f), fn.body, BeginFunction(fn.sig.results).types, FuncLabels(p, f), 1).types
              == fn.sig.results
  {
    hide LowerList, ElabList, Live, EndFunction, LowerModule, ElabFunc, NarrowList, ConcreteList, LocalTypes;
    var fn, ctx := p.m.funcs[f], CtxOf(p.m, f);
    var tc0 := BeginFunction(fn.sig.results);
    WrittenFunc(p, f);
    InFuncConcrete(p, f);
    FuncElab(p.m, f);
    assert ConcreteFunc(fn);
    TypesList(ctx, tc0, fn.body, FuncLabels(p, f), 1);
    FuncEndTypes(tc0, ElabList(ctx, tc0, fn.body).value.tc, fn.sig.results);
  }

  /** The instructions without a body, other than calls. */
  lemma SimLeaf(p: CProg, a: Site, tc: Checker, e: Expr, labels: seq<CLabel>, next: nat, outer: seq<Word>,
                vars: map<CVar, Word>, st: S.State, arities: seq<nat>, i: nat, fuel: nat)
    requires ExprReady(p, a, tc, e, labels, next, outer, vars, st, arities, i)
    requires !e.Block? && !e.Loop? && !e.If? && !e.Call?
    ensures var r := LowerExpr(CtxOf(p.m, a.f), e, tc.types, labels, next);
            Simulated(p, a, tc, r.types, i + |r.code|, outer, Conf(a, i, vars, st),
                      S.ExecExpr(p.m, e, arities, st, fuel), fuel)
  {
    hide Simulated, Runnable, Conf, LowerOp, GotoCode, S.ExecOp, S.BranchTo, Lands, SegAt, Fresh, Written;
    hide LowerList, S.Exec, CheckTargets, OpInstrs, ReturnInstrs, JumpTo, DropN, Operand, CtxOf, InFunc;
    hide ElabBody, ElabThen, OnOp, OnBr, OnBrIf, OnReturn, ElabBrTable;
    RunnableLabels(p, a, tc, labels, outer, vars, st, arities);
    match e
    case Simple(op) => SimSimple(p, a, tc, op, labels, outer, vars, st, arities, i, fuel);
    case Br(d) => SimBr(p, a, tc, d, labels, outer, vars, st, arities, i, fuel);
    case BrIf(d) => SimBrIf(p, a, tc, d, labels, outer, vars, st, arities, i, fuel);
    case BrTable(targets, default) => SimBrTable(p, a, tc, targets, default, labels, outer, vars, st, arities, i, fuel);
    case Return => SimReturn(p, a, tc, labels, outer, vars, st, arities, i, fuel);
    case _ => SimUnreachable(p, a, tc, tc.types, outer, vars, st, i, fuel);
  }

  lemma RunnableLabels(p: CProg, a: Site, tc: Checker, labels: seq<CLabel>, outer: seq<Word>, vars: map<CVar, Word>,
                       st: S.State, arities: seq<nat>)
    requires Runnable(p, a, tc, labels, outer, vars, st, arities)
    ensures a.f < |p.m.funcs| && |labels| == |tc.labels|
  {
  }

  lemma {:induction false} SimExpr(p: CProg, a: Site, tc: Checker, e: Expr, labels: seq<CLabel>, next: nat,
                                   outer: seq<Word>,
                                   vars: map<CVar, Word>, st: S.State, arities: seq<nat>, i: nat, fuel: nat)
    requires ExprReady(p, a, tc, e, labels, next, outer, vars, st, arities, i)
    ensures var r := LowerExpr(CtxOf(p.m, a.f), e, tc.types, labels, next);
            Simulated(p, a, tc, r.types, i + |r.code|, outer, Conf(a, i, vars, st),
                      S.ExecExpr(p.m, e, arities, st, fuel), fuel)
    decreases fuel, 0, e, 0
  {
    hide *;
    match e
    case Block(sig, body) => SimBlock(p, a, tc, sig, body, labels, next, outer, vars, st, arities, i, fuel);
    case Loop(sig, body) => SimLoop(p, a, tc, sig, body, labels, next, outer, vars, st, arities, i, fuel);
    case If(sig, thn, hasElse, els) => SimIf(p, a, tc, sig, thn, hasElse, els, labels, next, outer, vars, st, arities,
                                             i, fuel);
    case Call(f) => SimCall(p, a, tc, f, labels, next, outer, vars, st, arities, i, fuel);
    case _ => SimLeaf(p, a, tc, e, labels, next, outer, vars, st, arities, i, fuel);
  }
}
