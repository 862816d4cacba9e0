/** The lowering preserves meaning: the C machine on the lowered statements does what the structured
    semantics does on operand stacks. */
module CCorrectness {
  import opened Syntax
  import opened TypeChecker
  import opened Elaborate
  import opened CMachine
  import opened CLowering
  import opened CSimulation
  import opened CStatics
  import C = Correctness
  import H = SimulateOps
  import S = Semantics

  // ----- Places and outcomes -----------------------------------------------------------------------------

  /** Where a list's statements run: in the braces `code` of function `f`; `targets` is where a `goto`
      to each enclosing label arrives, the function's label first. */
  datatype Site = Site(code: seq<CStmt>, below: Kont, f: nat, callers: seq<Caller>, targets: seq<Kont>)

  function Conf(a: Site, i: nat, vars: map<CVar, Word>, st: S.State): Config {
    Config(Running, a.f, At(a.code, i, a.below), vars, st.locals, st.globals, a.callers)
  }

  /** The type stack on arrival at a label. */
  function LabelTypes(tc: Checker, d: nat): seq<Type>
    requires d < |tc.labels|
  {
    Reset(tc.types, tc.LabelAt(d).limit) + tc.LabelAt(d).BrTypes()
  }

  /** The writer's labels are the validator's. */
  predicate Labelled(tc: Checker, labels: seq<CLabel>) {
    |labels| == |tc.labels|
    && forall i :: 0 <= i < |labels| ==>
         && labels[i].loop == (tc.labels[i].kind == LoopLabel)
         && labels[i].results == tc.labels[i].results
         && labels[i].mark == tc.labels[i].limit
  }

  /** A `goto` to a label that `code` uses arrives at its target. */
  ghost predicate Lands(a: Site, code: seq<CStmt>, labels: seq<CLabel>) {
    |labels| == |a.targets|
    && forall i :: 0 <= i < |labels| && UsesList(code, labels[i].id) ==>
         Find(At(a.code, 0, a.below), labels[i].id) == Some(a.targets[i])
  }

  ghost predicate Arrives(p: CProg, ctx: Ctx, types: seq<Type>, s: Config, target: Kont, st: S.State) {
    exists vars :: EnvOk(ctx, types, vars, st)
      && Reaches(p, s, Config(Running, s.f, target, vars, st.locals, st.globals, s.callers), 1)
  }

  ghost predicate ReturnsAt(p: CProg, ctx: Ctx, results: seq<Type>, s: Config, target: Kont, vals: seq<Word>,
                            gs: seq<Word>)
  {
    exists ls :: Arrives(p, ctx, results, s, target, S.State(ls, vals, gs))
  }

  ghost predicate FallsThrough(p: CProg, a: Site, types: seq<Type>, next: nat, s: Config, st: S.State)
    requires a.f < |p.m.funcs|
  {
    exists vars :: EnvOk(CtxOf(p.m, a.f), types, vars, st) && Reaches(p, s, Conf(a, next, vars, st), 0)
  }

  ghost predicate Matches(p: CProg, a: Site, tc: Checker, types: seq<Type>, next: nat, outer: seq<Word>,
                          s: Config, o: S.Outcome, fuel: nat)
    requires a.f < |p.m.funcs|
  {
    match o
    case Normal(st) => FallsThrough(p, a, types, next, s, OnTop(outer, st))
    case Branch(d, vals, ls, gs) =>
      && d < |tc.labels| == |a.targets| && tc.LabelAt(d).limit <= |outer|
      && |vals| == |tc.LabelAt(d).BrTypes()|
      && Arrives(p, CtxOf(p.m, a.f), LabelTypes(tc, d), s, a.targets[|a.targets| - 1 - d],
                 S.State(ls, outer[..tc.LabelAt(d).limit] + vals, gs))
    case Returned(vals, gs) =>
      && tc.labels != [] && a.targets != []
      && ReturnsAt(p, CtxOf(p.m, a.f), tc.labels[0].results, s, a.targets[0], vals, gs)
    case Trapped(kind) => Traps(p, s, kind)
    case Stuck => false
    case Timeout => Lasts(p, s, fuel)
  }

  ghost predicate Simulated(p: CProg, a: Site, tc: Checker, types: seq<Type>, next: nat, outer: seq<Word>,
                            s: Config, o: S.Outcome, fuel: nat)
    requires a.f < |p.m.funcs|
  {
    Exhausts(p, s) || Matches(p, a, tc, types, next, outer, s, o, fuel)
  }

  // ----- Steps taken before are harmless -------------------------------------------------------------------

  lemma ArrivesLater(p: CProg, ctx: Ctx, types: seq<Type>, s: Config, t: Config, k: nat, target: Kont, st: S.State)
    requires Reaches(p, s, t, k) && Arrives(p, ctx, types, t, target, st) && t.f == s.f && t.callers == s.callers
    ensures Arrives(p, ctx, types, s, target, st)
  {
    hide Reaches, EnvOk;
    var vars :| EnvOk(ctx, types, vars, st)
      && Reaches(p, t, Config(Running, t.f, target, vars, st.locals, st.globals, t.callers), 1);
    var u := Config(Running, s.f, target, vars, st.locals, st.globals, s.callers);
    ReachesTrans(p, s, t, u, k, 1);
    ReachesLess(p, s, u, k + 1, 1);
  }

  lemma SimulatedLater(p: CProg, a: Site, tc: Checker, types: seq<Type>, next: nat, outer: seq<Word>,
                       s: Config, t: Config, k: nat, o: S.Outcome, fuel: nat)
    requires a.f < |p.m.funcs| && t.f == s.f && t.callers == s.callers
    requires Reaches(p, s, t, k) && Simulated(p, a, tc, types, next, outer, t, o, fuel)
    ensures Simulated(p, a, tc, types, next, outer, s, o, fuel)
  {
    hide Reaches, Lasts, Traps, Exhausts, EnvOk, Arrives;
    if Exhausts(p, t) {
      ExhaustsLater(p, s, t, k);
    } else {
      match o
      case Normal(st) =>
        var vars :| EnvOk(CtxOf(p.m, a.f), types, vars, OnTop(outer, st))
          && Reaches(p, t, Conf(a, next, vars, OnTop(outer, st)), 0);
        ReachesTrans(p, s, t, Conf(a, next, vars, OnTop(outer, st)), k, 0);
        ReachesLess(p, s, Conf(a, next, vars, OnTop(outer, st)), k, 0);
      case Branch(d, vals, ls, gs) =>
        ArrivesLater(p, CtxOf(p.m, a.f), LabelTypes(tc, d), s, t, k, a.targets[|a.targets| - 1 - d],
                     S.State(ls, outer[..tc.LabelAt(d).limit] + vals, gs));
      case Returned(vals, gs) =>
        var ls :| Arrives(p, CtxOf(p.m, a.f), tc.labels[0].results, t, a.targets[0], S.State(ls, vals, gs));
        ArrivesLater(p, CtxOf(p.m, a.f), tc.labels[0].results, s, t, k, a.targets[0], S.State(ls, vals, gs));
      case Trapped(kind) => TrapsLater(p, s, t, k, kind);
      case Stuck =>
      case Timeout => LastsMore(p, s, t, k, fuel);
    }
  }

  lemma LastsMore(p: CProg, s: Config, t: Config, k: nat, fuel: nat)
    requires Reaches(p, s, t, k) && Lasts(p, t, fuel)
    ensures Lasts(p, s, fuel)
  {
    LastsLater(p, s, t, k, fuel);
  }

  // ----- Single statements -------------------------------------------------------------------------------------

  /** The statements `code` are at position `i` of the braces. */
  predicate SegAt(all: seq<CStmt>, i: nat, code: seq<CStmt>) {
    i + |code| <= |all| && all[i..i + |code|] == code
  }

  lemma SegSplit(all: seq<CStmt>, i: nat, a: seq<CStmt>, b: seq<CStmt>)
    requires SegAt(all, i, a + b)
    ensures SegAt(all, i, a) && SegAt(all, i + |a|, b)
  {
    var c := all[i..i + |a + b|];
    assert all[i..i + |a|] == c[..|a|] == a;
    assert all[i + |a|..i + |a| + |b|] == c[|a|..] == b;
  }

  lemma StepAt(p: CProg, s: Config)
    requires s.status == Running && s.kont.At? && s.kont.i < |s.kont.code|
    ensures var t := Execute(p.c, p.depth, s.(kont := s.kont.(i := s.kont.i + 1)), s.kont.code[s.kont.i]);
            Reaches(p, s, t, 1)
  {
    hide Execute, Reaches;
    ReachesStep(p, s);
  }

  lemma StepOut(p: CProg, s: Config)
    requires s.status == Running && s.kont.At? && s.kont.i >= |s.kont.code|
    ensures Reaches(p, s, s.(kont := s.kont.below), 1)
  {
    hide Reaches;
    ReachesStep(p, s);
  }

  lemma TrapsAt(p: CProg, s: Config, t: Config, kind: S.TrapKind)
    requires Reaches(p, s, t, 1) && t.status == Trapped(kind)
    ensures Traps(p, s, kind)
  {
  }

  /** What the mutual induction needs to know at an instruction. */
  ghost predicate Runnable(p: CProg, a: Site, tc: Checker, labels: seq<CLabel>, outer: seq<Word>,
                           vars: map<CVar, Word>, st: S.State, arities: seq<nat>)
  {
    && InFunc(p, a.f)
    && Live(tc) && tc.labels[0].limit == 0 && tc.labels[0].kind == FuncLabel
    && Labelled(tc, labels) && |a.targets| == |labels|
    && C.LabelsMatch(arities, tc)
    && |outer| == tc.Top().limit
    && EnvOk(CtxOf(p.m, a.f), tc.types, vars, OnTop(outer, st))
  }

  lemma OpNotStuck(ctx: Ctx, tc: Checker, op: Op, outer: seq<Word>, st: S.State, vars: map<CVar, Word>)
    requires Wf(tc) && !tc.Top().unreachable && OnOp(ctx, tc, op).Some? && |outer| == tc.Top().limit
    requires EnvOk(ctx, tc.types, vars, OnTop(outer, st))
    ensures S.ExecOp(op, st) != S.Stuck
  {
    hide OnOp, Nested;
    H.OpHeight(ctx, tc, op);
  }

  lemma OpMatches(p: CProg, a: Site, tc: Checker, types: seq<Type>, next: nat, outer: seq<Word>, s: Config, t: Config,
                  vars: map<CVar, Word>, st: S.State, o: S.Outcome, fuel: nat)
    requires InFunc(p, a.f) && (o.Normal? || o.Trapped?) && Reaches(p, s, t, 1)
    requires OpDone(CtxOf(p.m, a.f), types, Conf(a, next, vars, st), t,
                    if o.Normal? then S.Normal(OnTop(outer, o.state)) else o)
    ensures Matches(p, a, tc, types, next, outer, s, o, fuel)
  {
    hide Reaches, EnvOk, InFunc;
    if o.Normal? {
      ReachesLess(p, s, t, 1, 0);
      assert t == Conf(a, next, t.vars, OnTop(outer, o.state));
    } else {
      TrapsAt(p, s, t, o.kind);
    }
  }

  lemma SimSimple(p: CProg, a: Site, tc: Checker, op: Op, labels: seq<CLabel>, outer: seq<Word>,
                  vars: map<CVar, Word>, st: S.State, arities: seq<nat>, i: nat, fuel: nat)
    requires Runnable(p, a, tc, labels, outer, vars, st, arities) && ConcreteExpr(Simple(op))
    requires OnOp(CtxOf(p.m, a.f), tc, op).Some?
    requires SegAt(a.code, i, LowerOp(CtxOf(p.m, a.f), tc.types, op).0)
    ensures var (code, types) := LowerOp(CtxOf(p.m, a.f), tc.types, op);
            Simulated(p, a, tc, types, i + |code|, outer, Conf(a, i, vars, st), S.ExecOp(op, st), fuel)
  {
    hide LowerModule, ConcreteModule, EnvOk, LowerOp, OnOp, Labelled, C.LabelsMatch, Reaches, Exhausts, Traps, Lasts;
    hide S.ExecOp, OpDone, ExecAssign, Matches, ConcreteExpr;
    var ctx := CtxOf(p.m, a.f);
    var (code, types) := LowerOp(ctx, tc.types, op);
    var full := OnTop(outer, st);
    var s := Conf(a, i, vars, st);
    OpNotStuck(ctx, tc, op, outer, st, vars);
    OpOuter(op, outer, st);
    if code == [] {
      OpLowered(p, a.f, tc, op, s, full);
      SimNone(p, a, tc, types, i, outer, vars, st, S.ExecOp(op, st), fuel);
    } else {
      var s1 := Conf(a, i + 1, vars, st);
      OpLowered(p, a.f, tc, op, s1, full);
      assert a.code[i] == a.code[i..i + |code|][0] == code[0];
      StepAt(p, s);
      OpMatches(p, a, tc, types, i + 1, outer, s, ExecAssign(p.c, s1, code[0].dst, code[0].e), vars, st,
                S.ExecOp(op, st), fuel);
    }
  }

  /** Instructions for which nothing is written. */
  lemma SimNone(p: CProg, a: Site, tc: Checker, types: seq<Type>, i: nat, outer: seq<Word>, vars: map<CVar, Word>,
                st: S.State, o: S.Outcome, fuel: nat)
    requires InFunc(p, a.f) && o.Normal?
    requires OpDone(CtxOf(p.m, a.f), types, Conf(a, i, vars, st), Conf(a, i, vars, st), S.Normal(OnTop(outer, o.state)))
    ensures Matches(p, a, tc, types, i, outer, Conf(a, i, vars, st), o, fuel)
  {
    hide Reaches, EnvOk, InFunc;
    ReachesNow(p, Conf(a, i, vars, st));
    assert Conf(a, i, vars, st) == Conf(a, i, vars, OnTop(outer, o.state));
  }

  // ----- Branches ------------------------------------------------------------------------------------------------

  /** The label's value, if any, is on the innermost operand stack with the label's type. */
  lemma BranchValue(tc: Checker, d: nat)
    requires Live(tc) && d < |tc.labels| && CheckSignature(tc, tc.LabelAt(d).BrTypes())
    ensures var keep := |tc.LabelAt(d).BrTypes()|;
            && keep <= 1
            && tc.LabelAt(d).limit <= tc.Top().limit <= |tc.types| - keep
            && (keep == 1 ==> tc.types[|tc.types| - 1] == tc.LabelAt(d).BrTypes()[0])
  {
    hide Nested;
    LimitBelow(tc.labels, |tc.labels| - 1 - d);
    assert PlainLabel(tc.labels[|tc.labels| - 1 - d]);
    if |tc.LabelAt(d).BrTypes()| == 1 {
      assert PeekIs(tc, 0, tc.LabelAt(d).BrTypes()[0]);
    }
  }

  /** What the copy leaves in the variables. */
  lemma BranchEnv(ctx: Ctx, tc: Checker, d: nat, outer: seq<Word>, vars: map<CVar, Word>, st: S.State)
    requires Live(tc) && d < |tc.labels| && CheckSignature(tc, tc.LabelAt(d).BrTypes())
    requires |outer| == tc.Top().limit && EnvOk(ctx, tc.types, vars, OnTop(outer, st))
    ensures var keep, mark := |tc.LabelAt(d).BrTypes()|, tc.LabelAt(d).limit;
            && keep <= |st.stack| && mark <= |outer| && keep <= 1
            && var st' := st.(stack := outer[..mark] + S.Take(st.stack, keep));
               && (keep == 0 || |tc.types| == mark + 1 ==> EnvOk(ctx, LabelTypes(tc, d), vars, st'))
               && (keep == 1 ==>
                     && st.stack != []
                     && EnvOk(ctx, LabelTypes(tc, d), vars[StackVar(mark,
                                                                    tc.LabelAt(d).BrTypes()[0]) := S.Top(st.stack)],
                                                                      st'))
  {
    hide CheckSignature, Live, EnvOk;
    BranchValue(tc, d);
    EnvTypes(ctx, tc.types, vars, OnTop(outer, st));
    var keep, mark := |tc.LabelAt(d).BrTypes()|, tc.LabelAt(d).limit;
    var full := OnTop(outer, st);
    assert full.stack[..mark] == outer[..mark];
    if keep == 0 {
      EnvDrop(ctx, tc.types, vars, full, mark);
      assert outer[..mark] + S.Take(st.stack, 0) == outer[..mark];
      assert LabelTypes(tc, d) == tc.types[..mark];
    } else {
      var ty, v := tc.LabelAt(d).BrTypes()[0], S.Top(st.stack);
      assert S.Take(st.stack, 1) == [v] && full.stack[|full.stack| - 1] == v;
      assert LabelTypes(tc, d) == tc.types[..mark] + [ty];
      TopFits(ctx, tc.types, vars, full);
      EnvPut(ctx, tc.types, vars, full, mark, ty, v);
      if |tc.types| == mark + 1 {
        assert tc.types == tc.types[..mark] + [ty] && full.stack == full.stack[..mark] + [v];
      }
    }
  }

  lemma TopFits(ctx: Ctx, types: seq<Type>, vars: map<CVar, Word>, st: S.State)
    requires EnvOk(ctx, types, vars, st) && types != []
    ensures Fits(types[|types| - 1], st.stack[|st.stack| - 1])
  {
  }

  lemma GotoShape(tc: Checker, labels: seq<CLabel>, d: nat)
    requires Live(tc) && Labelled(tc, labels) && d < |labels|
    ensures var ts, mark := tc.LabelAt(d).BrTypes(), tc.LabelAt(d).limit;
            GotoCode(tc.types, labels, d)
            == (if |ts| == 1 && |tc.types| != mark + 1
                then [Assign(StackVar(mark, ts[0]), Value(Operand(tc.types, 0)))] else [])
               + [Goto(labels[|labels| - 1 - d].id)]
  {
    hide Nested;
    assert PlainLabel(tc.labels[|tc.labels| - 1 - d]);
  }

  /** A written branch: the copy if one is needed, then the jump. */
  lemma SimGoto(p: CProg, ctx: Ctx, tc: Checker, labels: seq<CLabel>, d: nat, outer: seq<Word>, s: Config, st: S.State,
                target: Kont)
    requires Live(tc) && Labelled(tc, labels) && d < |labels| && CheckSignature(tc, tc.LabelAt(d).BrTypes())
    requires |outer| == tc.Top().limit && EnvOk(ctx, tc.types, s.vars, OnTop(outer, st))
    requires s.status == Running && s.locals == st.locals && s.globals == st.globals
    requires s.kont.At? && SegAt(s.kont.code, s.kont.i, GotoCode(tc.types, labels, d))
    requires Find(s.kont, labels[|labels| - 1 - d].id) == Some(target)
    ensures var keep, mark := |tc.LabelAt(d).BrTypes()|, tc.LabelAt(d).limit;
            && keep <= |st.stack| && mark <= |outer|
            && Arrives(p, ctx, LabelTypes(tc, d), s, target, st.(stack := outer[..mark] + S.Take(st.stack, keep)))
  {
    hide CheckSignature, Live, EnvOk, Reaches, Find, GotoCode;
    GotoShape(tc, labels, d);
    BranchEnv(ctx, tc, d, outer, s.vars, st);
    BranchValue(tc, d);
    EnvTypes(ctx, tc.types, s.vars, OnTop(outer, st));
    var l := labels[|labels| - 1 - d];
    var keep, mark := |tc.LabelAt(d).BrTypes()|, tc.LabelAt(d).limit;
    var code, i, below := s.kont.code, s.kont.i, s.kont.below;
    var g := GotoCode(tc.types, labels, d);
    assert g == code[i..i + |g|];
    FindPast(code, i, i + 1, below, l.id);
    FindPast(code, i, i + 2, below, l.id);
    if keep == 1 && |tc.types| != mark + 1 {
      assert code[i] == g[0] && code[i + 1] == g[1];
      var v := S.Top(st.stack);
      var s1 := s.(kont := At(code, i + 1, below), vars := s.vars[StackVar(mark, tc.LabelAt(d).BrTypes()[0]) := v]);
      CopyStep(p, ctx, tc, mark, tc.LabelAt(d).BrTypes()[0], outer, s, st);
      GotoStep(p, s1, l.id, target);
      ReachesTrans(p, s, s1, s1.(kont := target), 1, 1);
      ReachesLess(p, s, s1.(kont := target), 2, 1);
    } else {
      assert code[i] == g[0];
      GotoStep(p, s, l.id, target);
    }
  }

  lemma CopyStep(p: CProg, ctx: Ctx, tc: Checker, mark: nat, ty: Type, outer: seq<Word>, s: Config, st: S.State)
    requires EnvOk(ctx, tc.types, s.vars, OnTop(outer, st)) && st.stack != []
    requires tc.types != [] && tc.types[|tc.types| - 1] == ty
    requires s.status == Running && s.kont.At? && s.kont.i < |s.kont.code|
    requires s.kont.code[s.kont.i] == Assign(StackVar(mark, ty), Value(Operand(tc.types, 0)))
    ensures Reaches(p, s, s.(kont := s.kont.(i := s.kont.i + 1),
                             vars := s.vars[StackVar(mark, ty) := S.Top(st.stack)]), 1)
  {
    hide EnvOk, Reaches;
    EnvRead(ctx, tc.types, s.(kont := s.kont.(i := s.kont.i + 1)), OnTop(outer, st), 0);
    StepAt(p, s);
  }

  lemma GotoStep(p: CProg, s: Config, id: nat, target: Kont)
    requires s.status == Running && s.kont.At? && s.kont.i < |s.kont.code| && s.kont.code[s.kont.i] == Goto(id)
    requires Find(s.kont.(i := s.kont.i + 1), id) == Some(target)
    ensures Reaches(p, s, s.(kont := target), 1)
  {
    hide Reaches, Find;
    StepAt(p, s);
  }

  /** A label is looked for in the whole braces. */
  lemma FindPast(code: seq<CStmt>, i: nat, k: nat, below: Kont, id: nat)
    ensures Find(At(code, i, below), id) == Find(At(code, k, below), id)
  {
  }

  /** A branch's outcome, once its jump has been followed. */
  lemma BranchMatches(p: CProg, a: Site, tc: Checker, tc': Checker, types: seq<Type>, next: nat, d: nat,
                      outer: seq<Word>,
                      s: Config, st: S.State, arities: seq<nat>, fuel: nat)
    requires a.f < |p.m.funcs| && C.LabelsMatch(arities, tc) && d < |tc.labels| == |a.targets|
    requires tc'.labels == tc.labels && s.f == a.f && s.callers == a.callers
    requires Reset(tc'.types, tc.LabelAt(d).limit) == Reset(tc.types, tc.LabelAt(d).limit)
    requires var keep, mark := |tc.LabelAt(d).BrTypes()|, tc.LabelAt(d).limit;
             && keep <= |st.stack| && mark <= |outer|
             && Arrives(p, CtxOf(p.m, a.f), LabelTypes(tc', d), s, a.targets[|a.targets| - 1 - d],
                        st.(stack := outer[..mark] + S.Take(st.stack, keep)))
    ensures Matches(p, a, tc, types, next, outer, s, S.BranchTo(d, arities, st), fuel)
  {
    hide Arrives;
  }

  lemma LandsAt(a: Site, code: seq<CStmt>, labels: seq<CLabel>, k: nat, i: nat)
    requires Lands(a, code, labels) && k < |labels| && UsesList(code, labels[k].id)
    ensures Find(At(a.code, i, a.below), labels[k].id) == Some(a.targets[k])
  {
    FindPast(a.code, i, 0, a.below, labels[k].id);
  }

  lemma GotoUses(types: seq<Type>, labels: seq<CLabel>, d: nat)
    requires d < |labels|
    ensures UsesList(GotoCode(types, labels, d), labels[|labels| - 1 - d].id)
  {
    var id := labels[|labels| - 1 - d].id;
    assert UsesList([Goto(id)], id);
    UsesAppend(GotoCode(types, labels, d)[..|GotoCode(types, labels, d)| - 1], [Goto(id)], id);
    assert GotoCode(types, labels, d) == GotoCode(types, labels, d)[..|GotoCode(types, labels, d)| - 1] + [Goto(id)];
  }

  lemma SimBr(p: CProg, a: Site, tc: Checker, d: nat, labels: seq<CLabel>, outer: seq<Word>,
              vars: map<CVar, Word>, st: S.State, arities: seq<nat>, i: nat, fuel: nat)
    requires Runnable(p, a, tc, labels, outer, vars, st, arities) && OnBr(tc, d).Some?
    requires SegAt(a.code, i, GotoCode(tc.types, labels, d)) && Lands(a, GotoCode(tc.types, labels, d), labels)
    ensures Simulated(p, a, tc, tc.types, i + |GotoCode(tc.types, labels, d)|, outer, Conf(a, i, vars, st),
                      S.BranchTo(d, arities, st), fuel)
  {
    hide LowerModule, ConcreteModule, EnvOk, Live, Reaches, Exhausts, Arrives, Find, GotoCode, S.BranchTo,
         CheckSignature, Matches;
    hide C.LabelsMatch, Lands;
    GotoUses(tc.types, labels, d);
    LandsAt(a, GotoCode(tc.types, labels, d), labels, |labels| - 1 - d, i);
    var s := Conf(a, i, vars, st);
    SimGoto(p, CtxOf(p.m, a.f), tc, labels, d, outer, s, st, a.targets[|labels| - 1 - d]);
    BranchMatches(p, a, tc, tc, tc.types, i + |GotoCode(tc.types, labels, d)|, d, outer, s, st, arities, fuel);
  }

  /** `return` is a branch to the function's label. */
  lemma SimReturn(p: CProg, a: Site, tc: Checker, labels: seq<CLabel>, outer: seq<Word>,
                  vars: map<CVar, Word>, st: S.State, arities: seq<nat>, i: nat, fuel: nat)
    requires Runnable(p, a, tc, labels, outer, vars, st, arities) && OnReturn(tc).Some?
    requires SegAt(a.code, i, GotoCode(tc.types, labels, |labels| - 1))
             && Lands(a, GotoCode(tc.types, labels, |labels| - 1), labels)
    ensures arities != [] && arities[0] <= |st.stack|
    ensures Simulated(p, a, tc, tc.types, i + |GotoCode(tc.types, labels, |labels| - 1)|, outer, Conf(a, i, vars, st),
                      S.Returned(S.Take(st.stack, arities[0]), st.globals), fuel)
  {
    hide LowerModule, ConcreteModule, EnvOk, Live, Reaches, Exhausts, Arrives, Find, GotoCode, CheckSignature;
    hide Lands;
    var d := |labels| - 1;
    GotoUses(tc.types, labels, d);
    LandsAt(a, GotoCode(tc.types, labels, d), labels, 0, i);
    var s := Conf(a, i, vars, st);
    SimGoto(p, CtxOf(p.m, a.f), tc, labels, d, outer, s, st, a.targets[0]);
    var vals := S.Take(st.stack, arities[0]);
    assert LabelTypes(tc, d) == tc.labels[0].results;
    assert outer[..0] + vals == vals;
    assert ReturnsAt(p, CtxOf(p.m, a.f), tc.labels[0].results, s, a.targets[0], vals, st.globals);
  }

  /** Braces that declare no such label are left. */
  lemma FindInner(code: seq<CStmt>, i: nat, below: Kont, id: nat)
    requires forall k :: 0 <= k < |code| ==> code[k] != LabelDecl(id)
    ensures Find(At(code, i, below), id) == Find(below, id)
  {
    hide LabelIndex;
  }

  lemma GotoNoDecl(types: seq<Type>, labels: seq<CLabel>, d: int, id: nat)
    ensures forall k :: 0 <= k < |GotoCode(types, labels, d)| ==> GotoCode(types, labels, d)[k] != LabelDecl(id)
  {
  }

  function Popped(tc: Checker): Checker {
    tc.(types := DropN(tc.types, 1))
  }

  /** A condition or key is taken off the operand stack without any statement for it. */
  lemma KeyRead(p: CProg, f: nat, tc: Checker, outer: seq<Word>, s: Config, st: S.State)
    requires InFunc(p, f) && Live(tc) && PopSignature(tc, [I32]).Some? && |outer| == tc.Top().limit
    requires EnvOk(CtxOf(p.m, f), tc.types, s.vars, OnTop(outer, st))
    ensures st.stack != [] && PopSignature(tc, [I32]).value == Popped(tc) && Live(Popped(tc))
    ensures tc.Top().limit + 1 <= |tc.types|
    ensures Read(s, Operand(tc.types, 0)) == Some(S.Top(st.stack)) && S.Top(st.stack) < TWO_32
    ensures EnvOk(CtxOf(p.m, f), DropN(tc.types, 1), s.vars, OnTop(outer, st.(stack := S.Under(st.stack, 1))))
  {
    hide LowerModule, ConcreteModule, EnvOk, PopSignature, Nested;
    var ctx, full := CtxOf(p.m, f), OnTop(outer, st);
    EnvTypes(ctx, tc.types, s.vars, full);
    PopConcrete(tc, [I32]);
    EnvRead(ctx, tc.types, s, full, 0);
    EnvDrop(ctx, tc.types, s.vars, full, |tc.types| - 1);
    assert full.stack[..|full.stack| - 1] == outer + S.Under(st.stack, 1);
  }

  /** Into one of the branches of an `if` statement. */
  lemma GuardStep(p: CProg, a: Site, tc: Checker, outer: seq<Word>, vars: map<CVar, Word>, st: S.State, i: nat,
                  thn: seq<CStmt>, els: seq<CStmt>)
    requires InFunc(p, a.f) && Live(tc) && PopSignature(tc, [I32]).Some? && |outer| == tc.Top().limit
    requires EnvOk(CtxOf(p.m, a.f), tc.types, vars, OnTop(outer, st))
    requires i < |a.code| && a.code[i] == IfStmt(Operand(tc.types, 0), thn, els)
    ensures st.stack != []
    ensures var s := Conf(a, i, vars, st);
            Reaches(p, s, s.(kont := At(if S.Top(st.stack) % TWO_32 != 0 then thn
                                        else els, 0, At(a.code, i + 1, a.below))), 1)
  {
    hide LowerModule, ConcreteModule, EnvOk, PopSignature, Live, Reaches;
    KeyRead(p, a.f, tc, outer, Conf(a, i + 1, vars, st), st);
    StepAt(p, Conf(a, i, vars, st));
  }

  lemma BrIfChecked(tc: Checker, d: nat)
    requires Live(tc) && OnBrIf(tc, d).Some?
    ensures PopSignature(tc, [I32]) == Some(Popped(tc)) && d < |tc.labels| && Live(Popped(tc))
    ensures CheckSignature(Popped(tc), tc.LabelAt(d).BrTypes())
    ensures tc.LabelAt(d).limit < |tc.types|
  {
    hide CheckSignature, Nested;
    PopConcrete(tc, [I32]);
    LimitBelow(tc.labels, |tc.labels| - 1 - d);
  }

  lemma SimBrIf(p: CProg, a: Site, tc: Checker, d: nat, labels: seq<CLabel>, outer: seq<Word>,
                vars: map<CVar, Word>, st: S.State, arities: seq<nat>, i: nat, fuel: nat)
    requires Runnable(p, a, tc, labels, outer, vars, st, arities) && OnBrIf(tc, d).Some?
    requires var g := GotoCode(DropN(tc.types, 1), labels, d);
             SegAt(a.code, i, [IfStmt(Operand(tc.types, 0), g, [])])
               && Lands(a, [IfStmt(Operand(tc.types, 0), g, [])], labels)
    ensures st.stack != []
    ensures var st' := st.(stack := S.Under(st.stack, 1));
            Simulated(p, a, tc, DropN(tc.types, 1), i + 1, outer, Conf(a, i, vars, st),
                      if S.Top(st.stack) % TWO_32 != 0 then S.BranchTo(d, arities, st') else S.Normal(st'), fuel)
  {
    hide LowerModule, ConcreteModule, EnvOk, Live, Reaches, Exhausts, Arrives, Find, GotoCode, S.BranchTo,
         CheckSignature;
    hide C.LabelsMatch, Lands, OnBrIf, PopSignature, Matches;
    var ctx, g := CtxOf(p.m, a.f), GotoCode(DropN(tc.types, 1), labels, d);
    assert a.code[i] == a.code[i..i + 1][0] == IfStmt(Operand(tc.types, 0), g, []);
    BrIfChecked(tc, d);
    var s := Conf(a, i, vars, st);
    GuardStep(p, a, tc, outer, vars, st, i, g, []);
    KeyRead(p, a.f, tc, outer, s, st);
    var st' := st.(stack := S.Under(st.stack, 1));
    var next := At(a.code, i + 1, a.below);
    if S.Top(st.stack) % TWO_32 != 0 {
      GotoUses(DropN(tc.types, 1), labels, d);
      LandsAt(a, [a.code[i]], labels, |labels| - 1 - d, i + 1);
      GotoNoDecl(DropN(tc.types, 1), labels, d, labels[|labels| - 1 - d].id);
      FindInner(g, 0, next, labels[|labels| - 1 - d].id);
      var s1 := s.(kont := At(g, 0, next));
      JumpOut(p, a, tc, Popped(tc), i + 1, d, labels, outer, s, s1, st', arities, fuel);
    } else {
      FallOut(p, a, tc, DropN(tc.types, 1), i, outer, vars, st, st', fuel);
    }
  }

  /** A branch out of the braces of an `if` or `switch` statement. */
  lemma JumpOut(p: CProg, a: Site, tc: Checker, tc0: Checker, next: nat, d: nat, labels: seq<CLabel>, outer: seq<Word>,
                s: Config, s1: Config, st: S.State, arities: seq<nat>, fuel: nat)
    requires a.f < |p.m.funcs| && Live(tc0) && Labelled(tc0, labels) && d < |labels| == |a.targets|
    requires tc0.labels == tc.labels && C.LabelsMatch(arities, tc)
    requires CheckSignature(tc0, tc0.LabelAt(d).BrTypes()) && |outer| == tc0.Top().limit
    requires Reset(tc0.types, tc.LabelAt(d).limit) == Reset(tc.types, tc.LabelAt(d).limit)
    requires EnvOk(CtxOf(p.m, a.f), tc0.types, s1.vars, OnTop(outer, st))
    requires s1.status == Running && s1.locals == st.locals && s1.globals == st.globals
    requires s1.f == s.f == a.f && s1.callers == s.callers == a.callers
    requires s1.kont.At? && s1.kont.i == 0 && s1.kont.code == GotoCode(tc0.types, labels, d)
    requires Find(s1.kont, labels[|labels| - 1 - d].id) == Some(a.targets[|labels| - 1 - d])
    requires Reaches(p, s, s1, 1)
    ensures Matches(p, a, tc, tc0.types, next, outer, s, S.BranchTo(d, arities, st), fuel)
  {
    hide EnvOk, Live, Reaches, Arrives, Find, GotoCode, CheckSignature, Matches, S.BranchTo, C.LabelsMatch;
    var ctx, mark, keep := CtxOf(p.m, a.f), tc.LabelAt(d).limit, |tc.LabelAt(d).BrTypes()|;
    SimGoto(p, ctx, tc0, labels, d, outer, s1, st, a.targets[|labels| - 1 - d]);
    ArrivesLater(p, ctx, LabelTypes(tc0, d), s, s1, 1, a.targets[|labels| - 1 - d],
                 st.(stack := outer[..mark] + S.Take(st.stack, keep)));
    BranchMatches(p, a, tc, tc0, tc0.types, next, d, outer, s, st, arities, fuel);
  }

  /** An empty `else`. */
  lemma FallOut(p: CProg, a: Site, tc: Checker, types: seq<Type>, i: nat, outer: seq<Word>, vars: map<CVar, Word>,
                st: S.State, st': S.State, fuel: nat)
    requires a.f < |p.m.funcs| && EnvOk(CtxOf(p.m, a.f), types, vars, OnTop(outer, st'))
    requires st'.locals == st.locals && st'.globals == st.globals
    requires var s := Conf(a, i, vars, st); Reaches(p, s, s.(kont := At([], 0, At(a.code, i + 1, a.below))), 1)
    ensures Matches(p, a, tc, types, i + 1, outer, Conf(a, i, vars, st), S.Normal(st'), fuel)
  {
    hide EnvOk, Reaches;
    var s := Conf(a, i, vars, st);
    var s1 := s.(kont := At([], 0, At(a.code, i + 1, a.below)));
    var t := Conf(a, i + 1, vars, OnTop(outer, st'));
    StepOut(p, s1);
    ReachesTrans(p, s, s1, t, 1, 1);
    ReachesLess(p, s, t, 2, 0);
  }

  lemma {:induction false} UsesCase(cases: seq<CCase>, k: nat, id: nat)
    requires k < |cases| && UsesList(cases[k].code, id)
    ensures UsesAny(cases, id)
    decreases |cases|
  {
    hide UsesList;
    if k > 0 {
      UsesCase(cases[1..], k - 1, id);
    }
  }

  lemma TableChecked(tc: Checker, targets: seq<nat>, default: nat, k: nat)
    requires Live(tc) && ElabBrTable(tc, targets, default).Some? && k <= |targets|
    ensures PopSignature(tc, [I32]) == Some(Popped(tc)) && Live(Popped(tc))
    ensures var d := if k < |targets| then targets[k] else default;
            && d < |tc.labels| && CheckSignature(Popped(tc), tc.LabelAt(d).BrTypes())
               && tc.LabelAt(d).limit < |tc.types|
  {
    hide CheckSignature, Nested;
    assert PopSignature(tc, [I32]).Some?;
    PopConcrete(tc, [I32]);
    assert TargetOk(Popped(tc), targets + [default], k);
    LimitBelow(tc.labels, |tc.labels| - 1 - (if k < |targets| then targets[k] else default));
  }

  lemma SwitchStep(p: CProg, a: Site, tc: Checker, outer: seq<Word>, vars: map<CVar, Word>, st: S.State, i: nat,
                   cases: seq<CCase>, default: seq<CStmt>)
    requires InFunc(p, a.f) && Live(tc) && PopSignature(tc, [I32]).Some? && |outer| == tc.Top().limit
    requires EnvOk(CtxOf(p.m, a.f), tc.types, vars, OnTop(outer, st))
    requires i < |a.code| && a.code[i] == Switch(Operand(tc.types, 0), cases, default)
    ensures st.stack != []
    ensures var s, key := Conf(a, i, vars, st), S.Top(st.stack) % TWO_32;
            Reaches(p, s, s.(kont := At(if key < |cases| then cases[key].code
                                        else default, 0, At(a.code, i + 1, a.below))), 1)
  {
    hide LowerModule, ConcreteModule, EnvOk, PopSignature, Live, Reaches;
    KeyRead(p, a.f, tc, outer, Conf(a, i + 1, vars, st), st);
    StepAt(p, Conf(a, i, vars, st));
  }

  lemma SimBrTable(p: CProg, a: Site, tc: Checker, targets: seq<nat>, default: nat, labels: seq<CLabel>,
                   outer: seq<Word>,
                   vars: map<CVar, Word>, st: S.State, arities: seq<nat>, i: nat, fuel: nat)
    requires Runnable(p, a, tc, labels, outer, vars, st, arities) && ElabBrTable(tc, targets, default).Some?
    requires var types := DropN(tc.types, 1);
             var stmt := Switch(Operand(tc.types, 0), Cases(types, labels, targets), GotoCode(types, labels, default));
             SegAt(a.code, i, [stmt]) && Lands(a, [stmt], labels)
    ensures st.stack != []
    ensures var key := S.Top(st.stack) % TWO_32;
            var d := if key < |targets| then targets[key] else default;
            Simulated(p, a, tc, DropN(tc.types, 1), i + 1, outer, Conf(a, i, vars, st),
                      S.BranchTo(d, arities, st.(stack := S.Under(st.stack, 1))), fuel)
  {
    hide LowerModule, ConcreteModule, EnvOk, Live, Reaches, Exhausts, Arrives, Find, GotoCode, S.BranchTo,
         CheckSignature;
    hide C.LabelsMatch, Lands, PopSignature, Matches, ElabBrTable;
    var types := DropN(tc.types, 1);
    var stmt := Switch(Operand(tc.types, 0), Cases(types, labels, targets), GotoCode(types, labels, default));
    assert a.code[i] == a.code[i..i + 1][0] == stmt;
    TableChecked(tc, targets, default, |targets|);
    SwitchStep(p, a, tc, outer, vars, st, i, Cases(types, labels, targets), GotoCode(types, labels, default));
    var s := Conf(a, i, vars, st);
    KeyRead(p, a.f, tc, outer, s, st);
    var key := S.Top(st.stack) % TWO_32;
    var k := if key < |targets| then key else |targets|;
    TableChecked(tc, targets, default, k);
    var d := if key < |targets| then targets[key] else default;
    var id := labels[|labels| - 1 - d].id;
    var next := At(a.code, i + 1, a.below);
    GotoUses(types, labels, d);
    if key < |targets| {
      UsesCase(Cases(types, labels, targets), key, id);
    }
    assert UsesList([stmt], id);
    hide UsesList, Step, Runnable, Simulated;
    LandsAt(a, [stmt], labels, |labels| - 1 - d, i + 1);
    GotoNoDecl(types, labels, d, id);
    FindInner(GotoCode(types, labels, d), 0, next, id);
    JumpOut(p, a, tc, Popped(tc), i + 1, d, labels, outer, s, s.(kont := At(GotoCode(types, labels, d), 0, next)),
            st.(stack := S.Under(st.stack, 1)), arities, fuel);
  }

  lemma SimUnreachable(p: CProg, a: Site, tc: Checker, types: seq<Type>, outer: seq<Word>, vars: map<CVar, Word>,
                       st: S.State, i: nat, fuel: nat)
    requires a.f < |p.m.funcs| && SegAt(a.code, i, [TrapStmt])
    ensures Simulated(p, a, tc, types, i + 1, outer, Conf(a, i, vars, st), S.Trapped(S.UnreachableTrap), fuel)
  {
    hide Reaches;
    assert a.code[i] == a.code[i..i + 1][0] == TrapStmt;
    var s := Conf(a, i, vars, st);
    StepAt(p, s);
    TrapsAt(p, s, Conf(a, i + 1, vars, st).(status := Trapped(S.UnreachableTrap)), S.UnreachableTrap);
  }

  // ----- Leaving labels --------------------------------------------------------------------------------------

  /** Labels are found in the braces so far, or are younger than everything in them. */
  predicate Fresh(a: Site, i: nat, labels: seq<CLabel>, next: nat) {
    && (forall k :: 0 <= k < |labels| ==> labels[k].id < next)
    && forall k :: 0 <= k < i && k < |a.code| && a.code[k].LabelDecl? ==> a.code[k].id < next
  }

  lemma FreshOn(a: Site, i: nat, labels: seq<CLabel>, next: nat, code: seq<CStmt>, next': nat)
    requires Fresh(a, i, labels, next) && SegAt(a.code, i, code) && DeclaresIn(code, next, next')
    ensures Fresh(a, i + |code|, labels, next')
  {
    forall k | i <= k < i + |code| && a.code[k].LabelDecl? ensures a.code[k].id < next' {
      assert a.code[k] == code[k - i];
    }
  }

  /** The place that `goto` to a label declared behind `code` goes to. */
  lemma DeclFound(a: Site, i: nat, labels: seq<CLabel>, next: nat, code: seq<CStmt>, next': nat)
    requires Fresh(a, i, labels, next) && SegAt(a.code, i, code + [LabelDecl(next)])
             && DeclaresIn(code, next + 1, next')
    ensures Find(At(a.code, 0, a.below), next) == Some(At(a.code, i + |code| + 1, a.below))
  {
    var n := i + |code|;
    SegSplit(a.code, i, code, [LabelDecl(next)]);
    assert a.code[n] == a.code[n..n + 1][0] == LabelDecl(next);
    forall k | i <= k < n ensures a.code[k] != LabelDecl(next) {
      assert a.code[k] == code[k - i];
    }
  }

  /** Everything but falling through is seen from outside a label as its body saw it from inside. */
  lemma ExitSimulated(p: CProg, a: Site, a': Site, tc: Checker, tc1: Checker, kind: Kind, sig: Sig, end: nat,
                      outer: seq<Word>, base: seq<Word>, types: seq<Type>, from: nat, s: Config, o: S.Outcome,
                        fuel: nat)
    requires a.f < |p.m.funcs| && a'.f == a.f == s.f && s.callers == a.callers
    requires Live(tc) && Live(tc1) && Entered(tc, tc1, kind, sig) && tc1.types == tc.types
             && tc1.Top().limit == |tc.types|
    requires |outer| == tc.Top().limit && |outer + base| == |tc.types| && |a.targets| == |tc.labels|
    requires a'.targets == a.targets + [At(a.code, end, a.below)]
    requires o.Branch? && o.depth == 0 ==> kind != LoopLabel
    requires Matches(p, a', tc1, types, from, outer + base, s, o, fuel)
    requires o.Normal? ==> FallsThrough(p, a, tc.types + sig.results, end, s, OnTop(outer + base, o.state))
    ensures Matches(p, a, tc, tc.types + sig.results, end, outer, s, S.ExitLabel(o, base), fuel)
  {
    hide EnvOk, Reaches, Nested, Lasts, Traps;
    match o
    case Normal(st) => assert OnTop(outer + base, st) == OnTop(outer, st.(stack := base + st.stack));
    case Branch(d, vals, ls, gs) =>
      if d == 0 {
        var all := outer + base;
        assert tc1.LabelAt(0) == tc1.Top() && all[..tc1.Top().limit] == all;
        assert Reset(tc1.types, |tc.types|) == tc.types;
        assert (outer + base) + vals == outer + (base + vals);
        ArrivesFalls(p, a, tc.types + sig.results, end, s, S.State(ls, outer + (base + vals), gs));
      } else {
        assert tc1.LabelAt(d) == tc.LabelAt(d - 1);
        LimitBelow(tc.labels, |tc.labels| - d);
        assert (outer + base)[..tc1.LabelAt(d).limit] == outer[..tc1.LabelAt(d).limit];
      }
    case _ =>
  }

  lemma ArrivesFalls(p: CProg, a: Site, types: seq<Type>, end: nat, s: Config, st: S.State)
    requires a.f < |p.m.funcs| && s.f == a.f && s.callers == a.callers
    requires Arrives(p, CtxOf(p.m, a.f), types, s, At(a.code, end, a.below), st)
    ensures FallsThrough(p, a, types, end, s, st)
  {
    hide EnvOk, Reaches;
    var vars :| EnvOk(CtxOf(p.m, a.f), types, vars, st)
      && Reaches(p, s, Config(Running, s.f, At(a.code, end, a.below), vars, st.locals, st.globals, s.callers), 1);
    ReachesLess(p, s, Conf(a, end, vars, st), 1, 0);
  }

  /** Falling through over a label's declaration, if it was written. */
  lemma FallsOver(p: CProg, a: Site, types: seq<Type>, i: nat, decl: seq<CStmt>, s: Config, st: S.State)
    requires a.f < |p.m.funcs| && FallsThrough(p, a, types, i, s, st)
    requires SegAt(a.code, i, decl) && |decl| <= 1 && (decl != [] ==> decl[0].LabelDecl?)
    ensures FallsThrough(p, a, types, i + |decl|, s, st)
  {
    hide EnvOk, Reaches;
    if decl != [] {
      var vars :| EnvOk(CtxOf(p.m, a.f), types, vars, st) && Reaches(p, s, Conf(a, i, vars, st), 0);
      assert a.code[i] == a.code[i..i + 1][0] == decl[0];
      StepAt(p, Conf(a, i, vars, st));
      ReachesTrans(p, s, Conf(a, i, vars, st), Conf(a, i + 1, vars, st), 0, 1);
      ReachesLess(p, s, Conf(a, i + 1, vars, st), 1, 0);
    }
  }

  /** Falling through past a closing brace. */
  lemma FallsOut(p: CProg, a: Site, a': Site, types: seq<Type>, i: nat, s: Config, st: S.State)
    requires a.f < |p.m.funcs| && a'.f == a.f && a'.callers == a.callers && a'.below == At(a.code, i, a.below)
    requires FallsThrough(p, a', types, |a'.code|, s, st)
    ensures FallsThrough(p, a, types, i, s, st)
  {
    hide EnvOk, Reaches;
    var vars :| EnvOk(CtxOf(p.m, a.f), types, vars, st) && Reaches(p, s, Conf(a', |a'.code|, vars, st), 0);
    StepOut(p, Conf(a', |a'.code|, vars, st));
    ReachesTrans(p, s, Conf(a', |a'.code|, vars, st), Conf(a, i, vars, st), 0, 1);
    ReachesLess(p, s, Conf(a, i, vars, st), 1, 0);
  }

  /** A list that runs to its end holds no unconditional jump. */
  lemma {:induction false} RunsThrough(m: Module, es: ExprList, arities: seq<nat>, st: S.State, fuel: nat)
    requires S.Exec(m, es, arities, st, fuel).Normal?
    ensures !HasJump(es)
    decreases es
  {
    hide S.ExecExpr;
    match es
    case Nil =>
    case Cons(e, rest) =>
      NoJump(m, e, arities, st, fuel);
      RunsThrough(m, rest, arities, S.ExecExpr(m, e, arities, st, fuel).state, fuel);
  }

  lemma NoJump(m: Module, e: Expr, arities: seq<nat>, st: S.State, fuel: nat)
    requires S.ExecExpr(m, e, arities, st, fuel).Normal?
    ensures !IsJump(e)
  {
    hide S.Exec, S.ExitLabel;
  }

  // ----- Calls -----------------------------------------------------------------------------------------------

  /** What a call leaves: the callee at its end, with its result in the bottom stack variable. */
  ghost predicate CallMatches(p: CProg, f: nat, s: Config, o: S.Outcome, fuel: nat)
    requires f < |p.m.funcs|
  {
    match o
    case Returned(vals, gs) => CallReturned(p, f, s, vals, gs)
    case Trapped(kind) => Traps(p, s, kind)
    case Timeout => Lasts(p, s, fuel)
    case _ => false
  }

  ghost predicate CallReturned(p: CProg, f: nat, s: Config, vals: seq<Word>, gs: seq<Word>)
    requires f < |p.m.funcs|
  {
    exists vars, ls ::
      && EnvOk(CtxOf(p.m, f), p.m.funcs[f].sig.results, vars, S.State(ls, vals, gs))
      && Reaches(p, s, Config(Running, f, Stop, vars, ls, gs, s.callers), 0)
  }

  /** Arguments are read from the bottom one up. */
  lemma {:induction false} ArgsRead(ctx: Ctx, types: seq<Type>, s: Config, st: S.State, n: nat)
    requires EnvOk(ctx, types, s.vars, st) && n <= |types|
    ensures |types| == |st.stack|
    ensures ReadAll(s, Args(types, n)) == Some(S.Take(st.stack, n))
    decreases n
  {
    hide EnvOk;
    EnvTypes(ctx, types, s.vars, st);
    if n > 0 {
      EnvRead(ctx, types, s, st, n - 1);
      ArgsRead(ctx, types, s, st, n - 1);
      assert Args(types, n)[1..] == Args(types, n - 1);
      assert S.Take(st.stack, n) == [st.stack[|st.stack| - n]] + S.Take(st.stack, n - 1);
    }
  }

  /** Values of the right types are passed unchanged, and zero is a value of every type. */
  lemma CalleeFits(p: CProg, g: nat, args: seq<Word>)
    requires InFunc(p, g) && FitsAll(p.m.funcs[g].sig.params, args)
    ensures Convert(p.m.funcs[g].sig.params, args) == args
    ensures FitsAll(CtxOf(p.m, g).locals, args + Zeros(LocalCount(p.m.funcs[g].decls)))
    ensures |CtxOf(p.m, g).locals| == |args| + LocalCount(p.m.funcs[g].decls)
  {
    hide LowerModule;
    var ls := args + Zeros(LocalCount(p.m.funcs[g].decls));
    InFuncTypes(p, g);
    forall i | 0 <= i < |ls| ensures Fits(CtxOf(p.m, g).locals[i], ls[i]) {
      assert LocalTypes(p.m.funcs[g])[i] != Any;
    }
  }

  function CalleeStart(p: CProg, g: nat, args: seq<Word>, globals: seq<Word>, callers: seq<Caller>): Config
    requires g < |p.m.funcs| == |p.c.funcs|
  {
    Config(Running, g, At(p.c.funcs[g].body, 0, Stop), map[], args + Zeros(LocalCount(p.m.funcs[g].decls)), globals,
           callers)
  }

  lemma ExecCallIs(p: CProg, s: Config, into: Option<CVar>, g: nat, args: seq<CVar>, ws: seq<Word>)
    requires InFunc(p, g) && ReadAll(s, args) == Some(ws) && FitsAll(p.m.funcs[g].sig.params, ws)
    ensures |p.c.funcs| == |p.m.funcs|
    ensures ExecCall(p.c, p.depth, s, into, g, args)
         == if |s.callers| + 1 >= p.depth then s.(status := Exhausted)
            else CalleeStart(p, g, ws, s.globals, s.callers + [Caller(s.f, s.kont, s.vars, s.locals, into)])
  {
    hide ReadAll, LowerModule, ConcreteModule, Convert;
    InFuncTypes(p, g);
    CalleeFits(p, g, ws);
    LoweredSig(p, g);
  }

  lemma LoweredSig(p: CProg, g: nat)
    requires InFunc(p, g)
    ensures |p.c.funcs| == |p.m.funcs| && p.c.funcs[g].sig == p.m.funcs[g].sig
  {
    hide LowerList, ConcreteModule;
  }

  lemma CallEnter(p: CProg, a: Site, tc: Checker, g: nat, outer: seq<Word>, vars: map<CVar, Word>, st: S.State, i: nat)
    requires InFunc(p, a.f) && Live(tc) && OnCall(CtxOf(p.m, a.f), tc, g).Some? && |outer| == tc.Top().limit
    requires EnvOk(CtxOf(p.m, a.f), tc.types, vars, OnTop(outer, st))
    requires SegAt(a.code, i, LowerCall(CtxOf(p.m, a.f), tc.types, g).0)
    ensures g < |p.m.funcs| == |p.c.funcs|
    ensures var np := |p.m.funcs[g].sig.params|;
            var s := Conf(a, i, vars, st);
            var stmt := LowerCall(CtxOf(p.m, a.f), tc.types, g).0[0];
            && np <= |st.stack| && tc.Top().limit + np <= |tc.types|
            && FitsAll(p.m.funcs[g].sig.params, S.Take(st.stack, np))
            && stmt.CallStmt?
            && (|| Exhausts(p, s)
                || Reaches(p, s, CalleeStart(p, g, S.Take(st.stack, np), st.globals,
                                             a.callers + [Caller(a.f, At(a.code, i + 1, a.below), vars, st.locals,
                                                                 stmt.into)]), 1))
  {
    hide LowerModule, ConcreteModule, EnvOk, OnCall, Reaches, Live, ExecCall, CalleeStart, Args, FitsAll, ReadAll, Fits;
    var ctx, full := CtxOf(p.m, a.f), OnTop(outer, st);
    CallHeight(p, a.f, tc, g);
    var sig := p.m.funcs[g].sig;
    var np := |sig.params|;
    var s := Conf(a, i, vars, st);
    var s1 := Conf(a, i + 1, vars, st);
    EnvTypes(ctx, tc.types, vars, full);
    ArgsRead(ctx, tc.types, s1, full, np);
    assert S.Take(full.stack, np) == S.Take(st.stack, np);
    TakeFits(ctx, tc.types, vars, full, sig.params);
    var stmt := LowerCall(ctx, tc.types, g).0[0];
    ExecCallIs(p, s1, stmt.into, g, Args(tc.types, np), S.Take(st.stack, np));
    assert a.code[i] == a.code[i..i + 1][0] == LowerCall(ctx, tc.types, g).0[0];
    StepAt(p, s);
    if |a.callers| + 1 >= p.depth {
      ExhaustsAt(p, s, s1.(status := Exhausted));
    }
  }

  lemma ExhaustsAt(p: CProg, s: Config, t: Config)
    requires Reaches(p, s, t, 1) && t.status == Exhausted
    ensures Exhausts(p, s)
  {
  }

  lemma CallHeight(p: CProg, f: nat, tc: Checker, g: nat)
    requires InFunc(p, f) && Live(tc) && OnCall(CtxOf(p.m, f), tc, g).Some?
    ensures g < |p.m.funcs| && InFunc(p, g) && CtxOf(p.m, f).funcs[g] == p.m.funcs[g].sig
    ensures var params := p.m.funcs[g].sig.params;
            tc.Top().limit + |params| <= |tc.types| && tc.types == DropN(tc.types, |params|) + params
  {
    hide LowerModule, Nested, PopSignature;
    assert ConcreteFunc(p.m.funcs[g]);
    PopConcrete(tc, p.m.funcs[g].sig.params);
  }

  lemma TakeFits(ctx: Ctx, types: seq<Type>, vars: map<CVar, Word>, st: S.State, params: seq<Type>)
    requires EnvOk(ctx, types, vars, st) && |params| <= |types| && types == DropN(types, |params|) + params
    ensures |params| <= |st.stack| && FitsAll(params, S.Take(st.stack, |params|))
  {
    var n := |types| - |params|;
    forall k | 0 <= k < |params| ensures Fits(params[k], S.Take(st.stack, |params|)[k]) {
      assert types[n + k] == params[k] && Fits(types[n + k], st.stack[n + k]);
    }
  }

  /** The callee's end: its result lands where its lowest argument was. */
  lemma CallLeave(p: CProg, a: Site, tc: Checker, g: nat, outer: seq<Word>, vars: map<CVar, Word>, st: S.State, i: nat,
                  into: Option<CVar>, vals: seq<Word>, gs: seq<Word>, vars': map<CVar, Word>, ls: seq<Word>)
    requires InFunc(p, a.f) && Live(tc) && OnCall(CtxOf(p.m, a.f), tc, g).Some? && |outer| == tc.Top().limit
    requires EnvOk(CtxOf(p.m, a.f), tc.types, vars, OnTop(outer, st))
    requires g < |p.m.funcs| && |p.m.funcs[g].sig.results| <= 1
    requires |p.m.funcs[g].sig.params| <= |st.stack|
    requires into == (if p.m.funcs[g].sig.results == [] then None
                      else Some(StackVar(|tc.types| - |p.m.funcs[g].sig.params|, p.m.funcs[g].sig.results[0])))
    requires EnvOk(CtxOf(p.m, g), p.m.funcs[g].sig.results, vars', S.State(ls, vals, gs))
    ensures var np := |p.m.funcs[g].sig.params|;
            var st' := S.State(st.locals, S.Under(st.stack, np) + vals, gs);
            var t := Config(Running, g, Stop, vars', ls, gs,
                            a.callers + [Caller(a.f, At(a.code, i + 1, a.below), vars, st.locals, into)]);
            FallsThrough(p, a, LowerCall(CtxOf(p.m, a.f), tc.types, g).1, i + 1, t, OnTop(outer, st'))
  {
    hide LowerModule, ConcreteModule, EnvOk, OnCall, Reaches, Live, LowerCall, Read;
    CallHeight(p, a.f, tc, g);
    LoweredSig(p, g);
    CallTypes(CtxOf(p.m, a.f), tc.types, g);
    var ctx, sig := CtxOf(p.m, a.f), p.m.funcs[g].sig;
    var np, n := |sig.params|, |tc.types| - |sig.params|;
    var callers := a.callers + [Caller(a.f, At(a.code, i + 1, a.below), vars, st.locals, into)];
    assert callers[..|a.callers|] == a.callers;
    var t := Config(Running, g, Stop, vars', ls, gs, callers);
    var full := OnTop(outer, st).(globals := gs);
    GlobalsFrom(p, a.f, g, tc.types, vars, OnTop(outer, st), sig.results, vars', S.State(ls, vals, gs));
    EnvTypes(ctx, tc.types, vars, full);
    EnvTypes(CtxOf(p.m, g), sig.results, vars', S.State(ls, vals, gs));
    assert full.stack[..n] == outer + S.Under(st.stack, np);
    var st' := S.State(st.locals, S.Under(st.stack, np) + vals, gs);
    if vals == [] {
      EnvDrop(ctx, tc.types, vars, full, n);
      assert tc.types[..n] + sig.results == tc.types[..n] && S.Under(st.stack, np) + vals == S.Under(st.stack, np);
      LeaveVoid(p, a, g, i, LowerCall(ctx, tc.types, g).1, vars, t, into, OnTop(outer, st'));
    } else {
      EnvRead(CtxOf(p.m, g), sig.results, t, S.State(ls, vals, gs), 0);
      EnvPut(ctx, tc.types, vars, full, n, sig.results[0], vals[0]);
      assert full.stack[..n] + [vals[0]] == outer + (S.Under(st.stack, np) + vals);
      assert sig.results == [sig.results[0]];
      LeaveValue(p, a, g, i, LowerCall(ctx, tc.types, g).1, vars, t, into.value, vals[0], OnTop(outer, st'));
    }
  }

  lemma CallTypes(ctx: Ctx, types: seq<Type>, g: nat)
    requires g < |ctx.funcs| && |ctx.funcs[g].params| <= |types|
    ensures LowerCall(ctx, types, g).1 == types[..|types| - |ctx.funcs[g].params|] + ctx.funcs[g].results
  {
  }

  /** The callee's globals are the caller's. */
  lemma GlobalsFrom(p: CProg, f: nat, g: nat, types: seq<Type>, vars: map<CVar, Word>, st: S.State,
                    types': seq<Type>, vars': map<CVar, Word>, st': S.State)
    requires f < |p.m.funcs| && g < |p.m.funcs|
    requires EnvOk(CtxOf(p.m, f), types, vars, st) && EnvOk(CtxOf(p.m, g), types', vars', st')
    ensures EnvOk(CtxOf(p.m, f), types, vars, st.(globals := st'.globals))
  {
  }

  lemma LeaveVoid(p: CProg, a: Site, g: nat, i: nat, types: seq<Type>, vars: map<CVar, Word>, t: Config,
                  into: Option<CVar>, st': S.State)
    requires a.f < |p.m.funcs| && g < |p.c.funcs| && p.c.funcs[g].sig.results == [] && into.None?
    requires t.status == Running && t.f == g && t.kont == Stop && t.globals == st'.globals
    requires t.callers == a.callers + [Caller(a.f, At(a.code, i + 1, a.below), vars, st'.locals, into)]
    requires EnvOk(CtxOf(p.m, a.f), types, vars, st')
    ensures FallsThrough(p, a, types, i + 1, t, st')
  {
    hide EnvOk, Reaches;
    ReachesStep(p, t);
    assert t.callers[..|a.callers|] == a.callers;
    ReachesLess(p, t, Conf(a, i + 1, vars, st'), 1, 0);
  }

  lemma LeaveValue(p: CProg, a: Site, g: nat, i: nat, types: seq<Type>, vars: map<CVar, Word>, t: Config,
                   into: CVar, v: Word, st': S.State)
    requires a.f < |p.m.funcs| && g < |p.c.funcs| && p.c.funcs[g].sig.results != [] && into.StackVar?
    requires t.status == Running && t.f == g && t.kont == Stop && t.globals == st'.globals
    requires t.callers == a.callers + [Caller(a.f, At(a.code, i + 1, a.below), vars, st'.locals, Some(into))]
    requires Read(t, StackVar(0, p.c.funcs[g].sig.results[0])) == Some(v) && ConstWord(into.ty, v) == v
    requires EnvOk(CtxOf(p.m, a.f), types, vars[into := v], st')
    ensures FallsThrough(p, a, types, i + 1, t, st')
  {
    hide EnvOk, Reaches, Read, ConstWord;
    ReachesStep(p, t);
    assert t.callers[..|a.callers|] == a.callers;
    ReachesLess(p, t, Conf(a, i + 1, vars[into := v], st'), 1, 0);
  }
}
