/** One height per place: within a function a program counter has only one frame size, and an instruction
    that accesses a local was meant for only one. */
module Placement {
  import opened Syntax
  import opened Bytecode
  import opened Machine
  import opened TypeChecker
  import opened Elaborate
  import opened Layout
  import opened Linking
  import opened Simulation
  import opened SimulateOps
  import opened Correctness
  import opened Compiler
  import opened Heights

  predicate Within(ps: set<Place>, lo: int, hi: int) {
    forall q :: q in ps ==> lo <= q.pc < hi
  }

  predicate Distinct(ps: set<Place>) {
    forall q, r :: q in ps && r in ps && q.pc == r.pc && q.Point? == r.Point? ==> q == r
  }

  predicate Spread(ps: set<Place>, lo: int, hi: int) {
    Within(ps, lo, hi) && Distinct(ps)
  }

  lemma Join(a: set<Place>, b: set<Place>, lo: int, mid: int, hi: int)
    requires Spread(a, lo, mid) && Spread(b, mid, hi) && lo <= mid <= hi
    ensures Spread(a + b, lo, hi)
  {
  }

  lemma Wider(a: set<Place>, lo: int, hi: int, lo': int, hi': int)
    requires Spread(a, lo, hi) && lo' <= lo && hi <= hi'
    ensures Spread(a, lo', hi')
  {
  }

  lemma Single(pos: nat, size: int)
    ensures Spread({Point(pos, size)}, pos, pos + 1)
  {
  }

  /** A drop/keep prefix that is not there drops nothing. */
  lemma DropPlaced(pos: nat, size: int, drop: int, keep: nat)
    requires 0 <= drop <= size
    ensures Spread(DropPoints(pos, size, drop, keep), pos, pos + |EncodeAll(DropKeepInstrs(drop, keep))| + 1)
  {
    hide Encode;
    if DropKeepInstrs(drop, keep) == [] {
      if size < TWO_32 {
        assert drop == 0;
      }
    } else {
      EncodeOne(DropKeepInstrs(drop, keep)[0]);
    }
  }

  lemma JumpPlaced(ctx: Ctx, tc: Checker, d: nat, pos: nat)
    requires Wf(tc) && !tc.Top().unreachable && d < |tc.labels| && tc.Top().limit + BrKeep(tc, d) <= |tc.types|
    ensures Spread(DropPoints(pos, FrameSize(ctx, tc), BrDrop(tc, d), BrKeep(tc, d)), pos,
                   pos + Size(BrCode(JumpTo(tc, d))))
  {
    hide DropPoints, EncodeAll, BrDrop, BrKeep, FrameSize, LabelSize, Nested, DropKeepInstrs;
    BranchSize(ctx, tc, d);
    DropPlaced(pos, FrameSize(ctx, tc), BrDrop(tc, d), BrKeep(tc, d));
  }

  lemma SimplePlaced(ctx: Ctx, tc: Checker, op: Op, pos: nat)
    requires ElabSimple(ctx, tc, op).Some?
    ensures Spread(PointsExpr(ctx, tc, Simple(op), pos), pos, pos + Size(ElabSimple(ctx, tc, op).value.code))
  {
    hide OnOp, Encode, FrameSize;
    var instrs := OpInstrs(ctx, tc, OnOp(ctx, tc, op).value, op);
    if op != Nop {
      EncodeOne(instrs[0]);
    }
  }

  /** Checker states inside a function. */
  predicate Rooted(tc: Checker) {
    Wf(tc) && tc.labels[0].kind == FuncLabel
  }

  lemma ReturnPlaced(ctx: Ctx, tc: Checker, pos: nat)
    requires Rooted(tc) && !tc.Top().unreachable && ElabReturn(ctx, tc).Some?
    ensures Spread(PointsExpr(ctx, tc, Return, pos), pos, pos + Size(ElabReturn(ctx, tc).value.code))
  {
    hide DropPoints, Encode, EncodeAll, LabelSize, Nested, PopSignature, DropKeepInstrs;
    var drop, keep := ReturnDrop(ctx, tc), BrKeep(tc, |tc.labels| - 1);
    PopHeight(tc, tc.labels[0].results);
    LimitBelow(tc.labels, 0);
    EncodeSnoc(DropKeepInstrs(drop, keep), IReturn);
    DropPlaced(pos, FrameSize(ctx, tc), drop, keep);
  }

  lemma BrIfPlaced(ctx: Ctx, tc: Checker, d: nat, pos: nat)
    requires Wf(tc) && !tc.Top().unreachable && ElabBrIf(tc, d).Some?
    ensures Spread(PointsExpr(ctx, tc, BrIf(d), pos), pos, pos + Size(ElabBrIf(tc, d).value.code))
  {
    hide DropPoints, EncodeAll, LabelSize, Nested, PopSignature, DropKeepInstrs, OnBrIf, Spread;
    var r := ElabBrIf(tc, d).value;
    BrIfAfter(tc, d);
    JumpPlaced(ctx, r.tc, d, pos + 5);
    Single(pos, FrameSize(ctx, tc));
    var rest := DropPoints(pos + 5, FrameSize(ctx, r.tc), BrDrop(r.tc, d), BrKeep(r.tc, d));
    Wider({Point(pos, FrameSize(ctx, tc))}, pos, pos + 1, pos, pos + 5);
    Join({Point(pos, FrameSize(ctx, tc))}, rest, pos, pos + 5, pos + Size(r.code));
    assert rest == DropPoints(pos + 5, FrameSize(ctx, tc) - 1, BrDrop(tc, d) - 1, BrKeep(tc, d));
  }

  lemma FrameRooted(tc: Checker, tc': Checker)
    requires Rooted(tc) && TypeChecker.Frame(tc, tc')
    ensures Rooted(tc')
  {
    hide Nested;
    if |tc.labels| > 1 {
      assert tc'.labels[0] == tc'.labels[..|tc.labels| - 1][0] == tc.labels[0];
    }
  }

  lemma EnteredRooted(tc: Checker, tc': Checker, kind: Kind, sig: Sig)
    requires Rooted(tc) && Entered(tc, tc', kind, sig)
    ensures Rooted(tc')
  {
    hide Nested;
    assert tc'.labels[0] == tc'.labels[..|tc.labels|][0] == tc.labels[0];
  }

  lemma {:induction false} ListPlaced(ctx: Ctx, tc: Checker, es: ExprList, pos: nat)
    requires Rooted(tc) && ElabList(ctx, tc, es).Some?
    ensures Spread(PointsList(ctx, tc, es, pos), pos, pos + SizeList(ElabList(ctx, tc, es).value.code))
    decreases es, 0
  {
    hide ElabExpr, Size, PointsExpr, Spread, Rooted, Nested;
    NonePlaced(pos, pos + SizeList(ElabList(ctx, tc, es).value.code));
    match es
    case Nil =>
    case Cons(e, rest) =>
      if !tc.Top().unreachable {
        var h := ElabExpr(ctx, tc, e).value;
        RootedWf(tc);
        ExprFrame(ctx, tc, e);
        FrameRooted(tc, h.tc);
        ExprPlaced(ctx, tc, e, pos);
        ListPlaced(ctx, h.tc, rest, pos + Size(h.code));
        Join(PointsExpr(ctx, tc, e, pos), PointsList(ctx, h.tc, rest, pos + Size(h.code)), pos, pos + Size(h.code),
             pos + SizeList(ElabList(ctx, tc, es).value.code));
      }
  }

  lemma RootedWf(tc: Checker)
    requires Rooted(tc)
    ensures Wf(tc)
  {
  }

  lemma NonePlaced(lo: int, hi: int)
    ensures Spread({}, lo, hi)
  {
  }

  lemma {:induction false} LabelPlaced(ctx: Ctx, tc: Checker, kind: Kind, sig: Sig, body: ExprList, pos: nat)
    requires kind == LoopLabel || kind == BlockLabel
    requires Rooted(tc) && ElabExpr(ctx, tc, LabelExpr(kind, sig, body)).Some?
    ensures Spread(PointsExpr(ctx, tc, LabelExpr(kind, sig, body), pos), pos,
                    pos + Size(ElabExpr(ctx, tc, LabelExpr(kind, sig, body)).value.code))
    decreases body, 1
  {
    hide ElabList, PointsList, Spread, Rooted, Nested, EnterLabel, OnEnd, Entered;
    RootedWf(tc);
    ElabBodyParts(ctx, EnterLabel(tc, kind, sig), body);
    var tc1 := EnterLabel(tc, kind, sig).value;
    EnterEntered(tc, kind, sig);
    EnteredRooted(tc, tc1, kind, sig);
    ListPlaced(ctx, tc1, body, pos);
  }

  lemma {:induction false} IfPlaced(ctx: Ctx, tc: Checker, sig: Sig, thn: ExprList, els: ExprList, pos: nat)
    requires Rooted(tc) && !tc.Top().unreachable && ElabExpr(ctx, tc, If(sig, thn, false, els)).Some?
    ensures Spread(PointsExpr(ctx, tc, If(sig, thn, false, els), pos), pos,
                    pos + Size(ElabExpr(ctx, tc, If(sig, thn, false, els)).value.code))
    decreases thn, 1
  {
    hide ElabList, PointsList, Spread, Rooted, Nested, OnIf, OnEnd, Entered, Exits, PopSignature, FrameSize;
    RootedWf(tc);
    IfChecked(ctx, tc, sig, thn, els);
    IfEntered(tc, sig);
    var tc1 := OnIf(tc, sig).value;
    EnteredRooted(tc, tc1, IfLabel, sig);
    ListPlaced(ctx, tc1, thn, pos + 5);
    var guard := {Point(pos, FrameSize(ctx, tc))};
    Single(pos, FrameSize(ctx, tc));
    Wider(guard, pos, pos + 1, pos, pos + 5);
    var end := pos + 5 + SizeList(ElabList(ctx, tc1, thn).value.code);
    Join(guard, PointsList(ctx, tc1, thn, pos + 5), pos, pos + 5, end);
    assert PointsExpr(ctx, tc, If(sig, thn, false, els), pos) == guard + PointsList(ctx, tc1, thn, pos + 5);
  }

  lemma {:induction false} IfElsePlaced(ctx: Ctx, tc: Checker, sig: Sig, thn: ExprList, els: ExprList, pos: nat)
    requires Rooted(tc) && !tc.Top().unreachable && ElabExpr(ctx, tc, If(sig, thn, true, els)).Some?
    ensures Spread(PointsExpr(ctx, tc, If(sig, thn, true, els), pos), pos,
                    pos + Size(ElabExpr(ctx, tc, If(sig, thn, true, els)).value.code))
    decreases If(sig, thn, true, els), 0
  {
    hide ElabList, ElabExpr, PointsList, PointsExpr, Spread, Rooted, Nested, OnIf, OnElse, OnEnd, Entered, Exits;
    hide PopSignature, FrameSize, SizeList;
    RootedWf(tc);
    IfElseChecked(ctx, tc, sig, thn, els);
    IfEntered(tc, sig);
    var tc0, tc1 := PopSignature(tc, [I32]).value, OnIf(tc, sig).value;
    EnteredRooted(tc, tc1, IfLabel, sig);
    var t := ElabList(ctx, tc1, thn).value;
    var tc3 := OnElse(t.tc).value;
    PopFrame(tc, [I32]);
    FrameRooted(tc, tc0);
    EnteredRooted(tc0, tc3, ElseLabel, sig);
    ListPlaced(ctx, tc1, thn, pos + 5);
    var over := pos + 5 + SizeList(t.code);
    ListPlaced(ctx, tc3, els, over + 5);
    IfElsePoints(ctx, tc, sig, thn, els, pos);
    var guard := {Point(pos, FrameSize(ctx, tc))};
    var jump := if t.tc.Top().unreachable then {} else {Point(over, FrameSize(ctx, t.tc))};
    var end := over + 5 + SizeList(ElabList(ctx, tc3, els).value.code);
    Single(pos, FrameSize(ctx, tc));
    Single(over, FrameSize(ctx, t.tc));
    NonePlaced(over, over + 5);
    Wider(guard, pos, pos + 1, pos, pos + 5);
    Wider({Point(over, FrameSize(ctx, t.tc))}, over, over + 1, over, over + 5);
    Join(guard, PointsList(ctx, tc1, thn, pos + 5), pos, pos + 5, over);
    Join(jump, PointsList(ctx, tc3, els, over + 5), over, over + 5, end);
    Join(guard + PointsList(ctx, tc1, thn, pos + 5), jump + PointsList(ctx, tc3, els, over + 5), pos, over, end);
  }

  lemma {:induction false} ExprPlaced(ctx: Ctx, tc: Checker, e: Expr, pos: nat)
    requires Rooted(tc) && !tc.Top().unreachable && ElabExpr(ctx, tc, e).Some?
    ensures Spread(PointsExpr(ctx, tc, e, pos), pos, pos + Size(ElabExpr(ctx, tc, e).value.code))
    decreases e, 1
  {
    hide Spread, Rooted, ElabSimple, ElabBr, ElabBrIf, ElabReturn;
    RootedWf(tc);
    match e
    case Simple(op) => SimplePlaced(ctx, tc, op, pos);
    case Block(sig, body) => LabelPlaced(ctx, tc, BlockLabel, sig, body, pos);
    case Loop(sig, body) => LabelPlaced(ctx, tc, LoopLabel, sig, body, pos);
    case If(sig, thn, hasElse, els) =>
      if hasElse {
        IfElsePlaced(ctx, tc, sig, thn, els, pos);
      } else {
        IfPlaced(ctx, tc, sig, thn, els, pos);
      }
    case Br(d) => BrPlaced(ctx, tc, d, pos);
    case BrIf(d) => BrIfPlaced(ctx, tc, d, pos);
    case Return => ReturnPlaced(ctx, tc, pos);
    case _ => PlainPlaced(ctx, tc, e, pos);
  }

  lemma BrPlaced(ctx: Ctx, tc: Checker, d: nat, pos: nat)
    requires Wf(tc) && !tc.Top().unreachable && ElabBr(tc, d).Some?
    ensures Spread(PointsExpr(ctx, tc, Br(d), pos), pos, pos + Size(ElabBr(tc, d).value.code))
  {
    hide Spread, DropPoints, CheckSignature, SetUnreachable, Nested;
    BranchHeight(tc, d);
    JumpPlaced(ctx, tc, d, pos);
  }

  lemma PlainPlaced(ctx: Ctx, tc: Checker, e: Expr, pos: nat)
    requires e.BrTable? || e.Call? || e.Unreachable?
    requires ElabExpr(ctx, tc, e).Some?
    ensures Spread(PointsExpr(ctx, tc, e, pos), pos, pos + Size(ElabExpr(ctx, tc, e).value.code))
  {
    hide Encode, FrameSize, PopSignature, CheckTargets, OnCall;
    if e.Unreachable? {
      EncodeOne(IUnreachable);
    }
  }

  /** The same over a whole function, with its prologue and its implicit return. */
  lemma FuncDistinct(m: Module, f: nat, pos: nat)
    requires f < |m.funcs| && ElabFunc(m, f).Some?
    ensures Distinct(PointsFunc(m, f, pos))
  {
    hide ElabList, PointsList, EncodeAll, DropPoints, EndFunction, Spread, DropKeepInstrs, LocalCount;
    var fn, ctx := m.funcs[f], CtxOf(m, f);
    var a := AllocaInstrs(fn.decls);
    var start := pos + |EncodeAll(a)|;
    var tc := BeginFunction(fn.sig.results);
    var end := start + SizeList(ElabList(ctx, tc, fn.body).value.code);
    ListPlaced(ctx, tc, fn.body, start);
    var l, k := |ctx.locals|, |fn.sig.results|;
    DropPlaced(end, l + k, l, k);
    var exit := DropPoints(end, l + k, l, k);
    var last := end + |EncodeAll(DropKeepInstrs(l, k))| + 1;
    Join(PointsList(ctx, tc, fn.body, start), exit, start, end, last);
    var body := PointsList(ctx, tc, fn.body, start) + exit;
    if fn.decls == [] {
      assert PointsFunc(m, f, pos) == body;
      PlacedDistinct(body, start, last);
    } else {
      var entry := {Point(pos, |fn.sig.params|)};
      EncodeOne(IAlloca(LocalCount(fn.decls)));
      Single(pos, |fn.sig.params|);
      Wider(entry, pos, pos + 1, pos, start);
      Join(entry, body, pos, start, last);
      assert PointsFunc(m, f, pos) == entry + body;
      PlacedDistinct(entry + body, pos, last);
    }
  }

  lemma PlacedDistinct(ps: set<Place>, lo: int, hi: int)
    requires Spread(ps, lo, hi)
    ensures Distinct(ps)
  {
  }

  // ----- Runs -----------------------------------------------------------------------------------------------

  /** Where in the value stack a local instruction reaches, and `None` for all others. */
  function Reached(i: Instr, top: nat): Option<int> {
    match i
    case IGetLocal(d) => Some(top - d)
    case ISetLocal(d) => Some(top - 1 - d)
    case ITeeLocal(d) => Some(top - d)
    case _ => None
  }

  /** `x` is the local that the source meant at `pc`, and the only one. */
  ghost predicate Meant(p: Prog, f: nat, pc: nat, x: int)
    requires f < |p.m.funcs| == |p.offsets|
  {
    x >= 0 && Access(pc, x) in Points(p, f) && forall y :: Access(pc, y) in Points(p, f) ==> y == x
  }

  /** In function `f` with its frame at `base`: an instruction lies at the program counter, the frame has the
      only size that it can have there, and a local instruction reaches the slot of the local it was meant for. */
  ghost predicate Exact(p: Prog, s: Config, f0: nat, f: nat, base: nat)
    requires |p.m.funcs| == |p.offsets|
  {
    && AtPoint(p, s, f0, f, base)
    && (forall size :: Point(s.pc, size) in Points(p, f) ==> |s.stack| == base + size)
    && Fetch(p.code, s.pc).Some?
    && var i := Fetch(p.code, s.pc).value;
       && Flows(p, f, Points(p, f), Point(s.pc, |s.stack| - base), i)
       && (Reached(i, |s.stack|).Some? ==> Meant(p, f, s.pc, Reached(i, |s.stack|).value - base))
  }

  lemma PointExact(p: Prog, cs: seq<FuncCode>, s: Config, f0: nat, f: nat, base: nat)
    requires Placed(p, cs) && ElabFuncs(p.m, |p.m.funcs|) == Some(cs) && AtPoint(p, s, f0, f, base)
    ensures Exact(p, s, f0, f, base)
  {
    hide PointsFunc, Frames, FuncPlaced, CodeAt, Encode, CallsLaid, ElabFunc, ElabFuncs, InstrSize, Fetch;
    ElabFuncsAt(p.m, cs, |p.m.funcs|, f);
    FuncDistinct(p.m, f, p.offsets[f]);
    var ps, pt := Points(p, f), Point(s.pc, |s.stack| - base);
    assert FuncPlaced(p, cs[f], f);
    FuncFlow(p, f, cs[f], pt);
    var i :| CodeAt(p.code, pt.pc, Encode(i)) && InRange(i) && Flows(p, f, ps, pt, i);
    FetchEncode(p.code, s.pc, i);
    if Reached(i, |s.stack|).Some? {
      assert Access(s.pc, Reached(i, |s.stack|).value - base) in ps;
    }
  }

  /** Every state of every run of a validated module: heights are exact, and locals are the right ones. */
  lemma ValidatedExact(m: Module, cs: seq<FuncCode>, base: seq<Byte>, lim: Limits, f: nat, args: seq<Word>,
                       globals: seq<Word>, n: nat)
    requires Validated(m, cs, base, lim) && Callable(m, lim, f, args, globals)
    ensures var p := Linked(m, cs, base, lim);
            && |p.m.funcs| == |p.offsets|
            && var s := Run(p.code, p.lim, Start(p, f, args, globals), n);
               && Steady(p, s, f)
               && (s.status == Running ==> exists g: nat, frame: nat :: Exact(p, s, f, g, frame))
  {
    hide Validated, FuncPlaced, CallsLaid, AtPoint, Exact, Run;
    ValidatedPlaced(m, cs, base, lim);
    ValidatedSteady(m, cs, base, lim, f, args, globals, n);
    ValidatedElab(m, cs, base, lim);
    var p := Linked(m, cs, base, lim);
    var s := Run(p.code, p.lim, Start(p, f, args, globals), n);
    if s.status == Running {
      var g: nat, frame: nat :| AtPoint(p, s, f, g, frame);
      PointExact(p, cs, s, f, g, frame);
    }
  }

  lemma ValidatedElab(m: Module, cs: seq<FuncCode>, base: seq<Byte>, lim: Limits)
    requires Validated(m, cs, base, lim)
    ensures ElabFuncs(m, |m.funcs|) == Some(cs)
  {
  }
}
