/** Static height is dynamic height: at every step of every run the program counter is at an emitted
    instruction, and the value stack is exactly as high as the validator had it there. */
module Heights {
  import opened Syntax
  import opened Bytecode
  import opened Machine
  import opened TypeChecker
  import opened Elaborate
  import opened Layout
  import opened Linking
  import opened Simulation
  import opened SimulateOps
  import opened Correctness
  import opened Compiler

  /** `Point`: an emitted instruction and the size of its frame - locals and operands - when it is reached.
      `Access`: an instruction that the source meant for that local. */
  datatype Place = Point(pc: nat, size: int) | Access(pc: nat, local: nat)

  function LocalUse(op: Op, pos: nat): set<Place> {
    if op.LocalGet? || op.LocalSet? || op.LocalTee? then {Access(pos, op.x)} else {}
  }

  function FrameSize(ctx: Ctx, tc: Checker): nat {
    |ctx.locals| + |tc.types|
  }

  /** The frame on arrival at the target of label `i`. */
  function LabelSize(ctx: Ctx, tc: Checker, i: nat): nat
    requires i < |tc.labels|
  {
    |ctx.locals| + tc.labels[i].limit + |tc.labels[i].BrTypes()|
  }

  /** A drop/keep prefix, if there is one, and the instruction behind it. A frame too large for the
      prefix's 32-bit operand is never reached. */
  function DropPoints(pos: nat, size: int, drop: int, keep: nat): set<Place> {
    {Point(pos, size)}
    + (if size < TWO_32 then {Point(pos + |EncodeAll(DropKeepInstrs(drop, keep))|, size - drop)} else {})
  }

  /** The reachable instructions of a list laid out at `pos`. */
  function PointsList(ctx: Ctx, tc: Checker, es: ExprList, pos: nat): set<Place>
    decreases es, 0
  {
    match es
    case Nil => {}
    case Cons(e, rest) =>
      var h := ElabExpr(ctx, tc, e);
      if tc.Top().unreachable || h.None? then {}
      else PointsExpr(ctx, tc, e, pos) + PointsList(ctx, h.value.tc, rest, pos + Size(h.value.code))
  }

  function PointsBody(ctx: Ctx, entered: Option<Checker>, body: ExprList, pos: nat): set<Place>
    decreases body, 1
  {
    if entered.None? then {} else PointsList(ctx, entered.value, body, pos)
  }

  /** The jump at the end of the true branch, and the false branch. */
  function PointsElse(ctx: Ctx, entered: Option<Checker>, thn: ExprList, els: ExprList, pos: nat): set<Place>
    decreases els, 2
  {
    if entered.None? || ElabList(ctx, entered.value, thn).None? then {}
    else
      var t := ElabList(ctx, entered.value, thn).value;
      var over := pos + SizeList(t.code);
      (if t.tc.Top().unreachable then {} else {Point(over, FrameSize(ctx, t.tc))})
      + PointsBody(ctx, OnElse(t.tc), els, over + 5)
  }

  function PointsExpr(ctx: Ctx, tc: Checker, e: Expr, pos: nat): set<Place>
    decreases e, 0
  {
    var size := FrameSize(ctx, tc);
    match e
    case Simple(op) => if op == Nop then {} else {Point(pos, size)} + LocalUse(op, pos)
    case Block(sig, body) => PointsBody(ctx, EnterLabel(tc, BlockLabel, sig), body, pos)
    case Loop(sig, body) => PointsBody(ctx, EnterLabel(tc, LoopLabel, sig), body, pos)
    case If(sig, thn, hasElse, els) =>
      {Point(pos, size)} + PointsBody(ctx, OnIf(tc, sig), thn, pos + 5)
      + (if hasElse then PointsElse(ctx, OnIf(tc, sig), thn, els, pos + 5) else {})
    case Br(d) => if d < |tc.labels| then DropPoints(pos, size, BrDrop(tc, d), BrKeep(tc, d)) else {}
    case BrIf(d) =>
      {Point(pos, size)}
      + (if d < |tc.labels| then DropPoints(pos + 5, size - 1, BrDrop(tc, d) - 1, BrKeep(tc, d)) else {})
    case Return =>
      if tc.labels != [] then DropPoints(pos, size, ReturnDrop(ctx, tc), BrKeep(tc, |tc.labels| - 1)) else {}
    case _ => {Point(pos, size)}
  }

  /** A function's instructions; the code behind its body is reached by falling through or by a
      branch to the function's label, with the results on top of the locals. */
  function PointsFunc(m: Module, f: nat, pos: nat): set<Place>
    requires f < |m.funcs|
  {
    var fn, ctx := m.funcs[f], CtxOf(m, f);
    var start := pos + |EncodeAll(AllocaInstrs(fn.decls))|;
    var b := ElabList(ctx, BeginFunction(fn.sig.results), fn.body);
    (if fn.decls == [] then {} else {Point(pos, |fn.sig.params|)})
    + PointsList(ctx, BeginFunction(fn.sig.results), fn.body, start)
    + (if b.None? then {}
       else DropPoints(start + SizeList(b.value.code), |ctx.locals| + |fn.sig.results|, |ctx.locals|, |fn.sig.results|))
  }

  // ----- What every instruction does to its frame ------------------------------------------------

  /** The instruction `i` at `pt` stays inside its frame of function `f`, and wherever it goes next
      is again a point of `f`. */
  ghost predicate Flows(p: Prog, f: nat, ps: set<Place>, pt: Place, i: Instr)
    requires f < |p.m.funcs| == |p.offsets| && pt.Point?
  {
    var n, next := pt.size, pt.pc + InstrSize(i);
    match i
    case IUnreachable => true
    case IBr(t) => 0 <= t && Point(t, n) in ps
    case IBrUnless(t) => 1 <= n && 0 <= t && Point(t, n - 1) in ps && Point(next, n - 1) in ps
    case IBrTable(count, table) =>
      1 <= n && 0 <= count && 0 <= table && forall k :: 0 <= k <= count ==> EntryFlows(p, ps, table + 12 * k, n - 1)
    case IReturn => n == |p.m.funcs[f].sig.results|
    case ICall(t) =>
      exists g :: 0 <= g < |p.m.funcs| && t == p.offsets[g] && |p.m.funcs[g].sig.params| <= n
        && Point(next, n - |p.m.funcs[g].sig.params| + |p.m.funcs[g].sig.results|) in ps
    case IDrop => 1 <= n && Point(next, n - 1) in ps
    case ISelect => 3 <= n && Point(next, n - 2) in ps
    case IGetLocal(d) => HitsLocal(p, f, ps, pt.pc, n, d) && Point(next, n + 1) in ps
    case ISetLocal(d) => 1 <= n && HitsLocal(p, f, ps, pt.pc, n - 1, d) && Point(next, n - 1) in ps
    case ITeeLocal(d) => 1 <= n && HitsLocal(p, f, ps, pt.pc, n, d) && Point(next, n) in ps
    case IGetGlobal(g) => 0 <= g < |p.m.globals| && Point(next, n + 1) in ps
    case ISetGlobal(g) => 1 <= n && 0 <= g < |p.m.globals| && Point(next, n - 1) in ps
    case IConst32(_, _) => Point(next, n + 1) in ps
    case IConst64(_, _, _) => Point(next, n + 1) in ps
    case IBin(_) => 2 <= n && Point(next, n - 1) in ps
    case IAlloca(count) => 0 <= count && Point(next, n + count) in ps
    case IDropKeep(d, k) => 0 <= d && 0 <= k && d + k <= n && Point(next, n - d) in ps
    case _ => false
  }

  /** The slot `d` below the top of a frame of size `n` is the local that the source meant at `pc`. */
  predicate HitsLocal(p: Prog, f: nat, ps: set<Place>, pc: nat, n: int, d: int)
    requires f < |p.m.funcs|
  {
    1 <= d <= n && n - d < |p.m.funcs[f].sig.params| + LocalCount(p.m.funcs[f].decls) && Access(pc, n - d) in ps
  }

  predicate EntryFlows(p: Prog, ps: set<Place>, entry: nat, n: int) {
    && entry + 12 <= |p.code|
    && ReadU32(p.code, entry + 4) + ReadU32(p.code, entry + 8) <= n
    && Point(ReadU32(p.code, entry), n - ReadU32(p.code, entry + 4)) in ps
  }

  ghost predicate Flow(p: Prog, f: nat, ps: set<Place>, pt: Place)
    requires f < |p.m.funcs| == |p.offsets| && pt.Point?
  {
    exists i :: CodeAt(p.code, pt.pc, Encode(i)) && InRange(i) && Flows(p, f, ps, pt, i)
  }

  // ----- Entries -----------------------------------------------------------------------------------

  /** Control that falls through ends at a point. */
  predicate EndsIn(ctx: Ctx, after: Checker, end: nat, ps: set<Place>) {
    !after.Top().unreachable ==> Point(end, FrameSize(ctx, after)) in ps
  }

  /** The first instruction of reachable code is a point - also when the code is empty. */
  lemma {:induction false} ListEntry(ctx: Ctx, tc: Checker, es: ExprList, pos: nat, ps: set<Place>)
    requires Wf(tc) && !tc.Top().unreachable && ElabList(ctx, tc, es).Some?
    requires PointsList(ctx, tc, es, pos) <= ps
    requires var r := ElabList(ctx, tc, es).value; EndsIn(ctx, r.tc, pos + SizeList(r.code), ps)
    ensures Point(pos, FrameSize(ctx, tc)) in ps
    decreases es, 0
  {
    hide ElabExpr, Size, PointsExpr, FrameSize, Nested;
    match es
    case Nil =>
    case Cons(e, rest) =>
      var h := ElabExpr(ctx, tc, e).value;
      ExprFrame(ctx, tc, e);
      if !h.tc.Top().unreachable {
        ListEntry(ctx, h.tc, rest, pos + Size(h.code), ps);
      }
      ExprEntry(ctx, tc, e, pos, ps);
  }

  lemma {:induction false} LabelEntry(ctx: Ctx, tc: Checker, tc1: Checker, kind: Kind, sig: Sig, body: ExprList,
                                      pos: nat, ps: set<Place>)
    requires EnterLabel(tc, kind, sig) == Some(tc1) && Wf(tc) && !tc.Top().unreachable
    requires ElabBody(ctx, Some(tc1), body).Some? && PointsBody(ctx, Some(tc1), body, pos) <= ps
    requires var r := ElabBody(ctx, Some(tc1), body).value; EndsIn(ctx, r.tc, pos + SizeList(r.code), ps)
    ensures Point(pos, FrameSize(ctx, tc)) in ps
    decreases body, 1
  {
    hide ElabList, PointsList, EnterLabel, OnEnd, PopSignature, Nested, SizeList;
    EnterHeight(tc, kind, sig);
    ElabBodyParts(ctx, Some(tc1), body);
    ListFrame(ctx, tc1, body);
    var b := ElabList(ctx, tc1, body).value;
    EndExits(tc, tc1, b.tc, OnEnd(b.tc).value, kind, sig);
    ListEntry(ctx, tc1, body, pos, ps);
  }

  lemma {:induction false} ExprEntry(ctx: Ctx, tc: Checker, e: Expr, pos: nat, ps: set<Place>)
    requires Wf(tc) && !tc.Top().unreachable && ElabExpr(ctx, tc, e).Some?
    requires PointsExpr(ctx, tc, e, pos) <= ps
    requires var r := ElabExpr(ctx, tc, e).value; EndsIn(ctx, r.tc, pos + Size(r.code), ps)
    ensures Point(pos, FrameSize(ctx, tc)) in ps
    decreases e, 0
  {
    hide ElabBody, ElabThen, PointsBody, PointsElse, EnterLabel, OnIf, EncodeAll, FrameSize, ReturnInstrs, OnReturn,
         OnBrIf;
    hide Nested;
    match e
    case Block(sig, body) =>
      ElabBodyParts(ctx, EnterLabel(tc, BlockLabel, sig), body);
      LabelEntry(ctx, tc, EnterLabel(tc, BlockLabel, sig).value, BlockLabel, sig, body, pos, ps);
    case Loop(sig, body) =>
      ElabBodyParts(ctx, EnterLabel(tc, LoopLabel, sig), body);
      LabelEntry(ctx, tc, EnterLabel(tc, LoopLabel, sig).value, LoopLabel, sig, body, pos, ps);
    case Simple(op) => NopEmpty(ctx, tc);
    case _ =>
  }

  lemma NopEmpty(ctx: Ctx, tc: Checker)
    ensures ElabSimple(ctx, tc, Nop) == Some(Elab(Plain([]), tc)) && Size(Plain([])) == 0
  {
  }

  // ----- Single instructions -------------------------------------------------------------------------

  /** A place in the body of function `f`: every label's target is a point of the right size. */
  ghost predicate Laid(p: Prog, f: nat, tc: Checker, env: Env, ps: set<Place>) {
    && Small(p)
    && f < |p.m.funcs| == |p.offsets|
    && env.funcs == p.offsets
    && |env.labels| == |tc.labels|
    && Wf(tc)
    && tc.labels[0].limit == 0
    && tc.labels[0].kind == FuncLabel
    && tc.labels[0].results == p.m.funcs[f].sig.results
    && forall i :: 0 <= i < |tc.labels| ==>
         env.labels[i] < TWO_32 && Point(env.labels[i], LabelSize(CtxOf(p.m, f), tc, i)) in ps
  }

  lemma FlowBy(p: Prog, f: nat, ps: set<Place>, pt: Place, i: Instr)
    requires f < |p.m.funcs| == |p.offsets| && pt.Point?
    requires CodeAt(p.code, pt.pc, Encode(i)) && InRange(i) && Flows(p, f, ps, pt, i)
    ensures Flow(p, f, ps, pt)
  {
  }

  lemma OpFits(op: Op, height: nat, locals: nat)
    requires Takes(op) <= height && height + locals < TWO_32
    requires op.LocalGet? || op.LocalSet? || op.LocalTee? ==> op.x < locals
    requires op.GlobalGet? || op.GlobalSet? ==> op.g < TWO_32
    ensures InRange(OpInstr(op, height, locals))
  {
  }

  lemma OpFlows(p: Prog, f: nat, ps: set<Place>, pt: Place, op: Op, height: nat, locals: nat)
    requires f < |p.m.funcs| == |p.offsets| && op != Nop && pt.Point? && LocalUse(op, pt.pc) <= ps
    requires locals == |p.m.funcs[f].sig.params| + LocalCount(p.m.funcs[f].decls) && pt.size == height + locals
    requires Takes(op) <= height
    requires op.LocalGet? || op.LocalSet? || op.LocalTee? ==> op.x < locals
    requires op.GlobalGet? || op.GlobalSet? ==> op.g < |p.m.globals|
    requires Point(pt.pc + InstrSize(OpInstr(op, height, locals)), pt.size - Takes(op) + Leaves(op)) in ps
    ensures Flows(p, f, ps, pt, OpInstr(op, height, locals))
  {
    hide InstrSize;
  }

  lemma SimpleFlow(p: Prog, f: nat, tc: Checker, op: Op, env: Env, pos: nat, ps: set<Place>)
    requires Laid(p, f, tc, env, ps) && !tc.Top().unreachable && op != Nop && LocalUse(op, pos) <= ps
    requires OnOp(CtxOf(p.m, f), tc, op).Some? && FrameSize(CtxOf(p.m, f), tc) < TWO_32
    requires var ctx := CtxOf(p.m, f);
             var c := EncodeAll(OpInstrs(ctx, tc, OnOp(ctx, tc, op).value, op));
             CodeAt(p.code, pos, c) && EndsIn(ctx, OnOp(ctx, tc, op).value, pos + |c|, ps)
    ensures Flow(p, f, ps, Point(pos, FrameSize(CtxOf(p.m, f), tc)))
  {
    hide OnOp, Encode, CodeAt, EncodeAll, OpInstr, InRange, Flows, Flow, OpInstrs, Takes, Leaves;
    var ctx := CtxOf(p.m, f);
    OpHeight(ctx, tc, op);
    OpInstrsAre(ctx, tc, op);
    var i := OpInstr(op, |tc.types|, |ctx.locals|);
    EncodeOne(i);
    OpFits(op, |tc.types|, |ctx.locals|);
    OpFlows(p, f, ps, Point(pos, FrameSize(ctx, tc)), op, |tc.types|, |ctx.locals|);
    FlowBy(p, f, ps, Point(pos, FrameSize(ctx, tc)), i);
  }

  /** A drop/keep prefix brings the frame to the size that the instruction behind it needs. */
  lemma DropFlow(p: Prog, f: nat, ps: set<Place>, pos: nat, n: nat, drop: nat, keep: nat, i: Instr, pt: Place)
    requires f < |p.m.funcs| == |p.offsets|
    requires CodeAt(p.code, pos, EncodeAll(DropKeepInstrs(drop, keep)) + Encode(i)) && InRange(i)
    requires drop + keep <= n && DropPoints(pos, n, drop, keep) <= ps && pt in DropPoints(pos, n, drop, keep)
    requires pt.Point? && pt.size < TWO_32
    requires Flows(p, f, ps, Point(pos + |EncodeAll(DropKeepInstrs(drop, keep))|, n - drop), i)
    ensures Flow(p, f, ps, pt)
  {
    hide CodeAt, Encode, Flow, Flows;
    var dk := DropKeepInstrs(drop, keep);
    CodeAtSplit(p.code, pos, EncodeAll(dk), Encode(i));
    FlowBy(p, f, ps, Point(pos + |EncodeAll(dk)|, n - drop), i);
    if drop != 0 && pt == Point(pos, n) {
      EncodeOne(dk[0]);
      DropFlows(p, f, ps, pos, n, drop, keep);
      FlowBy(p, f, ps, pt, dk[0]);
    }
  }

  lemma DropFlows(p: Prog, f: nat, ps: set<Place>, pos: nat, n: nat, drop: nat, keep: nat)
    requires f < |p.m.funcs| == |p.offsets|
    requires 0 < drop && drop + keep <= n < TWO_32 && DropPoints(pos, n, drop, keep) <= ps
    ensures |DropKeepInstrs(drop, keep)| == 1
    ensures InRange(DropKeepInstrs(drop, keep)[0]) && Flows(p, f, ps, Point(pos, n), DropKeepInstrs(drop, keep)[0])
  {
    hide Encode;
    EncodeOne(DropKeepInstrs(drop, keep)[0]);
    assert Point(pos + |EncodeAll(DropKeepInstrs(drop, keep))|, n - drop) in ps;
  }

  /** The frame at a branch is the label's frame plus what is dropped. */
  lemma BranchSize(ctx: Ctx, tc: Checker, d: nat)
    requires Wf(tc) && !tc.Top().unreachable && d < |tc.labels|
    requires tc.Top().limit + BrKeep(tc, d) <= |tc.types|
    ensures 0 <= BrDrop(tc, d)
    ensures FrameSize(ctx, tc) - BrDrop(tc, d) == LabelSize(ctx, tc, |tc.labels| - 1 - d)
    ensures BrKeep(tc, d) <= LabelSize(ctx, tc, |tc.labels| - 1 - d)
  {
    LimitBelow(tc.labels, |tc.labels| - 1 - d);
  }

  lemma JumpFlow(p: Prog, f: nat, tc: Checker, d: nat, env: Env, pos: nat, ps: set<Place>, pt: Place)
    requires Laid(p, f, tc, env, ps) && !tc.Top().unreachable && d < |tc.labels|
    requires tc.Top().limit + BrKeep(tc, d) <= |tc.types| && pt.Point? && pt.size < TWO_32
    requires CodeAt(p.code, pos, JumpBytes(env, JumpTo(tc, d)))
    requires var points := DropPoints(pos, FrameSize(CtxOf(p.m, f), tc), BrDrop(tc, d), BrKeep(tc, d));
             points <= ps && pt in points
    ensures Flow(p, f, ps, pt)
  {
    hide CodeAt, Encode, EncodeAll, Flow, DropPoints, BrDrop, BrKeep, FrameSize, LabelSize, DropKeepInstrs, Nested;
    var ctx := CtxOf(p.m, f);
    BranchSize(ctx, tc, d);
    DropFlow(p, f, ps, pos, FrameSize(ctx, tc), BrDrop(tc, d), BrKeep(tc, d), IBr(env.labels[|tc.labels| - 1 - d]), pt);
  }

  lemma ReturnFlow(p: Prog, f: nat, tc: Checker, env: Env, pos: nat, ps: set<Place>, pt: Place)
    requires Laid(p, f, tc, env, ps) && !tc.Top().unreachable && OnReturn(tc).Some? && pt.Point? && pt.size < TWO_32
    requires CodeAt(p.code, pos, EncodeAll(ReturnInstrs(CtxOf(p.m, f), tc)))
    requires var ctx := CtxOf(p.m, f);
             var points := DropPoints(pos, FrameSize(ctx, tc), ReturnDrop(ctx, tc), BrKeep(tc, |tc.labels| - 1));
             points <= ps && pt in points
    ensures Flow(p, f, ps, pt)
  {
    hide CodeAt, Encode, EncodeAll, Flow, DropPoints, DropKeepInstrs, PopSignature, CheckSignature;
    var ctx := CtxOf(p.m, f);
    PopHeight(tc, tc.labels[0].results);
    EncodeSnoc(DropKeepInstrs(ReturnDrop(ctx, tc), BrKeep(tc, |tc.labels| - 1)), IReturn);
    DropFlow(p, f, ps, pos, FrameSize(ctx, tc), ReturnDrop(ctx, tc), BrKeep(tc, |tc.labels| - 1), IReturn, pt);
  }

  lemma BrIfFlow(p: Prog, f: nat, tc: Checker, d: nat, env: Env, pos: nat, ps: set<Place>, pt: Place)
    requires Laid(p, f, tc, env, ps) && !tc.Top().unreachable && ElabBrIf(tc, d).Some?
    requires CodeAt(p.code, pos, Gen(env, ElabBrIf(tc, d).value.code, pos))
    requires PointsExpr(CtxOf(p.m, f), tc, BrIf(d), pos) <= ps && pt in PointsExpr(CtxOf(p.m, f), tc, BrIf(d), pos)
    requires var r := ElabBrIf(tc, d).value; EndsIn(CtxOf(p.m, f), r.tc, pos + Size(r.code), ps)
    requires pt.Point? && pt.size < TWO_32
    ensures Flow(p, f, ps, pt)
  {
    hide CodeAt, Encode, EncodeAll, Flow, OnBrIf, PopSignature, JumpBytes, DropKeepInstrs, LabelSize, Nested;
    var ctx := CtxOf(p.m, f);
    var r := ElabBrIf(tc, d).value;
    BrIfAfter(tc, d);
    JumpBytesSize(env, env, r.code.jump);
    var jump := JumpBytes(env, r.code.jump);
    var to := pos + 5 + |jump|;
    CodeAtSplit(p.code, pos, Encode(IBrUnless(to)), jump);
    CodeAtEnd(p.code, pos + 5, jump);
    LaidFrame(p, f, tc, r.tc, env, ps);
    if pt == Point(pos, FrameSize(ctx, tc)) {
      assert Point(pos + 5, FrameSize(ctx, r.tc)) in ps;
      FlowBy(p, f, ps, pt, IBrUnless(to));
    } else {
      JumpFlow(p, f, r.tc, d, env, pos + 5, ps, pt);
    }
  }

  /** Only the labels matter to where control may go. */
  lemma LaidFrame(p: Prog, f: nat, tc: Checker, tc': Checker, env: Env, ps: set<Place>)
    requires Laid(p, f, tc, env, ps) && Wf(tc')
    requires tc'.labels == tc.labels || TypeChecker.Frame(tc, tc')
    ensures Laid(p, f, tc', env, ps)
  {
    hide Nested;
    var ctx, n := CtxOf(p.m, f), |tc.labels| - 1;
    if TypeChecker.Frame(tc, tc') {
      forall i | 0 <= i < |tc.labels|
        ensures tc'.labels[i] == tc.labels[i].(unreachable := tc'.labels[i].unreachable)
      {
        if i < n {
          assert tc'.labels[i] == tc'.labels[..n][i] == tc.labels[..n][i] == tc.labels[i];
        }
      }
    }
    forall i | 0 <= i < |tc'.labels| ensures LabelSize(ctx, tc', i) == LabelSize(ctx, tc, i) {
    }
  }

  lemma LaidInside(p: Prog, f: nat, tc: Checker, tc1: Checker, kind: Kind, sig: Sig, env: Env, target: nat,
                   ps: set<Place>)
    requires Laid(p, f, tc, env, ps) && Entered(tc, tc1, kind, sig) && target < TWO_32
    requires Point(target, LabelSize(CtxOf(p.m, f), tc1, |tc.labels|)) in ps
    ensures Laid(p, f, tc1, Inside(env, target), ps)
  {
    hide Nested;
    var ctx := CtxOf(p.m, f);
    forall i | 0 <= i < |tc.labels| ensures tc1.labels[i] == tc.labels[i] {
      assert tc1.labels[i] == tc1.labels[..|tc.labels|][i];
    }
    forall i | 0 <= i < |tc.labels| ensures LabelSize(ctx, tc1, i) == LabelSize(ctx, tc, i) {
    }
  }

  lemma EntryFlow(p: Prog, f: nat, tc1: Checker, d: nat, env: Env, entry: nat, ps: set<Place>)
    requires Laid(p, f, tc1, env, ps) && !tc1.Top().unreachable && d < |tc1.labels|
    requires tc1.Top().limit + BrKeep(tc1, d) <= |tc1.types| && FrameSize(CtxOf(p.m, f), tc1) < TWO_32
    requires CodeAt(p.code, entry, EntryBytes(env, JumpTo(tc1, d)))
    ensures EntryFlows(p, ps, entry, FrameSize(CtxOf(p.m, f), tc1))
  {
    hide CodeAt, EntryBytes, BrDrop, BrKeep, FrameSize, LabelSize, ReadU32, Nested;
    BranchSize(CtxOf(p.m, f), tc1, d);
    ReadEntry(p.code, env, JumpTo(tc1, d), entry);
  }

  lemma BrTableFlow(p: Prog, f: nat, tc: Checker, targets: seq<nat>, default: nat, env: Env, pos: nat, ps: set<Place>)
    requires Laid(p, f, tc, env, ps) && !tc.Top().unreachable && ElabBrTable(tc, targets, default).Some?
    requires CodeAt(p.code, pos, Gen(env, ElabBrTable(tc, targets, default).value.code, pos))
    requires FrameSize(CtxOf(p.m, f), tc) < TWO_32
    ensures Flow(p, f, ps, Point(pos, FrameSize(CtxOf(p.m, f), tc)))
  {
    hide CodeAt, Encode, PopSignature, EntryBytes, EntryFlows, CheckTargets, Gen, LabelSize, BrKeep, Nested, Flow;
    var ctx := CtxOf(p.m, f);
    TableAfter(ctx, tc, targets, default, |targets|);
    var tc1, all := PopSignature(tc, [I32]).value, targets + [default];
    LaidFrame(p, f, tc, tc1, env, ps);
    var jumps := JumpsTo(tc1, all);
    TableParts(p.code, env, jumps, pos, 0);
    forall k | 0 <= k <= |targets| ensures EntryFlows(p, ps, pos + 14 + 12 * k, FrameSize(ctx, tc1)) {
      TableAfter(ctx, tc, targets, default, k);
      TableParts(p.code, env, jumps, pos, k);
      EntryFlow(p, f, tc1, all[k], env, pos + 14 + 12 * k, ps);
    }
    FlowBy(p, f, ps, Point(pos, FrameSize(ctx, tc)), IBrTable(|targets|, pos + 14));
  }

  lemma CallFlow(p: Prog, f: nat, tc: Checker, g: nat, env: Env, pos: nat, ps: set<Place>)
    requires Laid(p, f, tc, env, ps) && !tc.Top().unreachable && OnCall(CtxOf(p.m, f), tc, g).Some?
    requires CodeAt(p.code, pos, Encode(ICall(p.offsets[g]))) && p.offsets[g] < TWO_32
    requires EndsIn(CtxOf(p.m, f), OnCall(CtxOf(p.m, f), tc, g).value, pos + 5, ps)
    ensures Flow(p, f, ps, Point(pos, FrameSize(CtxOf(p.m, f), tc)))
  {
    hide CodeAt, Encode, PopPush, LabelSize, Nested, Flow;
    var ctx, sig := CtxOf(p.m, f), p.m.funcs[g].sig;
    PopPushHeight(tc, sig.params, sig.results);
    FlowBy(p, f, ps, Point(pos, FrameSize(ctx, tc)), ICall(p.offsets[g]));
  }

  // ----- Structured instructions ------------------------------------------------------------------------

  /** The list `es` with checker state `tc` is laid out at `pos` in function `f`. */
  ghost predicate ListLaid(p: Prog, f: nat, tc: Checker, es: ExprList, env: Env, pos: nat, ps: set<Place>) {
    && Laid(p, f, tc, env, ps)
    && CallsLaid(p)
    && ElabList(CtxOf(p.m, f), tc, es).Some?
    && BalancedIfs(es)
    && var r := ElabList(CtxOf(p.m, f), tc, es).value;
       && CodeAt(p.code, pos, GenList(env, r.code, pos))
       && PointsList(CtxOf(p.m, f), tc, es, pos) <= ps
       && EndsIn(CtxOf(p.m, f), r.tc, pos + SizeList(r.code), ps)
  }

  ghost predicate ExprLaid(p: Prog, f: nat, tc: Checker, e: Expr, env: Env, pos: nat, ps: set<Place>) {
    && Laid(p, f, tc, env, ps)
    && CallsLaid(p)
    && ElabExpr(CtxOf(p.m, f), tc, e).Some?
    && BalancedIf(e)
    && var r := ElabExpr(CtxOf(p.m, f), tc, e).value;
       && CodeAt(p.code, pos, Gen(env, r.code, pos))
       && PointsExpr(CtxOf(p.m, f), tc, e, pos) <= ps
       && EndsIn(CtxOf(p.m, f), r.tc, pos + Size(r.code), ps)
  }

  predicate CallsLaid(p: Prog) {
    forall g :: 0 <= g < |p.offsets| ==> p.offsets[g] < TWO_32
  }

  lemma {:induction false} ListFlow(p: Prog, f: nat, tc: Checker, es: ExprList, env: Env, pos: nat, ps: set<Place>,
                                    pt: Place)
    requires ListLaid(p, f, tc, es, env, pos, ps)
    requires pt in PointsList(CtxOf(p.m, f), tc, es, pos) && pt.Point? && pt.size < TWO_32
    ensures Flow(p, f, ps, pt)
    decreases es, 0
  {
    hide CodeAt, Gen, ElabExpr, Size, PointsExpr, Flow, BalancedIf, CtxOf, FrameSize, Nested;
    match es
    case Nil =>
    case Cons(e, rest) =>
      var ctx := CtxOf(p.m, f);
      var h := ElabExpr(ctx, tc, e).value;
      var t := ElabList(ctx, h.tc, rest).value;
      GenSize(env, h.code, pos);
      CodeAtSplit(p.code, pos, Gen(env, h.code, pos), GenList(env, t.code, pos + Size(h.code)));
      ExprFrame(ctx, tc, e);
      LaidFrame(p, f, tc, h.tc, env, ps);
      if pt in PointsList(ctx, h.tc, rest, pos + Size(h.code)) {
        ListFlow(p, f, h.tc, rest, env, pos + Size(h.code), ps, pt);
      } else {
        if !h.tc.Top().unreachable {
          ListEntry(ctx, h.tc, rest, pos + Size(h.code), ps);
        }
        ExprFlow(p, f, tc, e, env, pos, ps, pt);
      }
  }

  lemma {:induction false} BodyFlow(p: Prog, f: nat, tc: Checker, tc1: Checker, kind: Kind, sig: Sig, body: ExprList,
                                    env: Env, target: nat, pos: nat, ps: set<Place>, pt: Place)
    requires Laid(p, f, tc, env, ps) && CallsLaid(p) && Entered(tc, tc1, kind, sig) && target < TWO_32
    requires Point(target, LabelSize(CtxOf(p.m, f), tc1, |tc.labels|)) in ps
    requires ElabList(CtxOf(p.m, f), tc1, body).Some? && BalancedIfs(body)
    requires var r := ElabList(CtxOf(p.m, f), tc1, body).value;
             && CodeAt(p.code, pos, GenList(Inside(env, target), r.code, pos))
             && PointsList(CtxOf(p.m, f), tc1, body, pos) <= ps
             && EndsIn(CtxOf(p.m, f), r.tc, pos + SizeList(r.code), ps)
    requires pt in PointsList(CtxOf(p.m, f), tc1, body, pos) && pt.Point? && pt.size < TWO_32
    ensures Flow(p, f, ps, pt)
    decreases body, 1
  {
    hide CodeAt, GenList, ElabList, PointsList, Flow, BalancedIfs, CtxOf, FrameSize, LabelSize, Laid, Entered, EndsIn,
         Nested;
    LaidInside(p, f, tc, tc1, kind, sig, env, target, ps);
    ListFlow(p, f, tc1, body, Inside(env, target), pos, ps, pt);
  }

  /** Inside a label's end the frame is as large as just outside it. */
  lemma ExitSize(ctx: Ctx, tc: Checker, tc1: Checker, tc2: Checker, tc3: Checker, kind: Kind, sig: Sig, end: nat,
                 ps: set<Place>)
    requires Exits(tc, tc1, tc2, tc3, kind, sig) && !tc.Top().unreachable && EndsIn(ctx, tc3, end, ps)
    ensures EndsIn(ctx, tc2, end, ps)
    ensures kind != LoopLabel ==> Point(end, LabelSize(ctx, tc1, |tc.labels|)) in ps
  {
    hide Nested;
  }

  lemma {:induction false} LabelFlow(p: Prog, f: nat, tc: Checker, kind: Kind, sig: Sig, body: ExprList, env: Env,
                                     pos: nat, ps: set<Place>, pt: Place)
    requires kind == LoopLabel || kind == BlockLabel
    requires ExprLaid(p, f, tc, LabelExpr(kind, sig, body), env, pos, ps) && !tc.Top().unreachable
    requires pt in PointsExpr(CtxOf(p.m, f), tc, LabelExpr(kind, sig, body), pos) && pt.Point? && pt.size < TWO_32
    ensures Flow(p, f, ps, pt)
    decreases body, 2
  {
    hide CodeAt, GenList, ElabList, PointsList, Flow, BalancedIfs, CtxOf, EndsIn, Nested, EnterLabel, OnEnd, SizeList;
    hide Entered, Exits, FrameSize, LabelSize, CallsLaid;
    var ctx := CtxOf(p.m, f);
    ElabBodyParts(ctx, EnterLabel(tc, kind, sig), body);
    EnterHeight(tc, kind, sig);
    var tc1 := EnterLabel(tc, kind, sig).value;
    var r := ElabList(ctx, tc1, body).value;
    var tc3 := OnEnd(r.tc).value;
    var target := LabelOffset(kind, pos, r.code);
    EnteredWf(tc, tc1, kind, sig);
    ListFrame(ctx, tc1, body);
    EndExits(tc, tc1, r.tc, tc3, kind, sig);
    ListEnd(p, Inside(env, target), r.code, pos);
    ExitSize(ctx, tc, tc1, r.tc, tc3, kind, sig, pos + SizeList(r.code), ps);
    if kind == LoopLabel {
      LoopTarget(ctx, tc, tc1, sig, body, pos, ps);
    }
    BodyFlow(p, f, tc, tc1, kind, sig, body, env, target, pos, ps, pt);
  }

  lemma LoopTarget(ctx: Ctx, tc: Checker, tc1: Checker, sig: Sig, body: ExprList, pos: nat, ps: set<Place>)
    requires Entered(tc, tc1, LoopLabel, sig) && ElabList(ctx, tc1, body).Some?
    requires PointsList(ctx, tc1, body, pos) <= ps
    requires var r := ElabList(ctx, tc1, body).value; EndsIn(ctx, r.tc, pos + SizeList(r.code), ps)
    ensures Point(pos, LabelSize(ctx, tc1, |tc.labels|)) in ps
  {
    hide Nested, ElabList, PointsList, SizeList, EndsIn;
    ListEntry(ctx, tc1, body, pos, ps);
  }

  /** The conditional jump at the head of an `if`. */
  lemma GuardFlow(p: Prog, f: nat, ctx: Ctx, tc: Checker, tc0: Checker, env: Env, pos: nat, to: nat, ps: set<Place>)
    requires Laid(p, f, tc, env, ps) && !tc.Top().unreachable && PopSignature(tc, [I32]) == Some(tc0)
    requires CodeAt(p.code, pos, Encode(IBrUnless(to))) && to < TWO_32
    requires Point(to, FrameSize(ctx, tc0)) in ps && Point(pos + 5, FrameSize(ctx, tc0)) in ps
    ensures Flow(p, f, ps, Point(pos, FrameSize(ctx, tc)))
  {
    hide Nested, CodeAt, Encode, PopSignature, Flow, LabelSize;
    PopHeight(tc, [I32]);
    FlowBy(p, f, ps, Point(pos, FrameSize(ctx, tc)), IBrUnless(to));
  }

  lemma {:induction false} IfFlow(p: Prog, f: nat, tc: Checker, sig: Sig, thn: ExprList, els: ExprList, env: Env,
                                  pos: nat, ps: set<Place>, pt: Place)
    requires ExprLaid(p, f, tc, If(sig, thn, false, els), env, pos, ps) && !tc.Top().unreachable
    requires pt in PointsExpr(CtxOf(p.m, f), tc, If(sig, thn, false, els), pos) && pt.Point? && pt.size < TWO_32
    ensures Flow(p, f, ps, pt)
    decreases thn, 2
  {
    hide CodeAt, GenList, ElabList, ElabExpr, PointsList, Flow, BalancedIfs, CtxOf, EndsIn, Nested, OnIf, OnEnd,
         SizeList;
    hide Entered, Exits, FrameSize, LabelSize, CallsLaid, PopSignature, Encode;
    var ctx := CtxOf(p.m, f);
    IfChecked(ctx, tc, sig, thn, els);
    var tc0, tc1 := PopSignature(tc, [I32]).value, OnIf(tc, sig).value;
    var r := ElabList(ctx, tc1, thn).value;
    var tc3 := OnEnd(r.tc).value;
    var end := pos + 5 + SizeList(r.code);
    CodeAtSplit(p.code, pos, Encode(IBrUnless(end)), GenList(Inside(env, end), r.code, pos + 5));
    ListEnd(p, Inside(env, end), r.code, pos + 5);
    IfEnds(p, f, tc, tc0, tc1, r.tc, tc3, sig, thn, env, pos, end, ps);
    if pt in PointsList(ctx, tc1, thn, pos + 5) {
      BodyFlow(p, f, tc0, tc1, IfLabel, sig, thn, env, end, pos + 5, ps, pt);
    } else {
      GuardFlow(p, f, ctx, tc, tc0, env, pos, end, ps);
    }
  }

  /** Both ways past the condition of an `if` without `else` arrive at points: that needs the `if` to
      have no parameters. */
  lemma IfEnds(p: Prog, f: nat, tc: Checker, tc0: Checker, tc1: Checker, tc2: Checker, tc3: Checker, sig: Sig,
               thn: ExprList, env: Env, pos: nat, end: nat, ps: set<Place>)
    requires Laid(p, f, tc, env, ps) && !tc.Top().unreachable && tc0.labels == tc.labels
    requires Entered(tc0, tc1, IfLabel, sig) && tc1.Top().limit + |sig.params| == |tc0.types|
    requires Exits(tc0, tc1, tc2, tc3, IfLabel, sig) && sig == Sig([], [])
    requires ElabList(CtxOf(p.m, f), tc1, thn).Some? && ElabList(CtxOf(p.m, f), tc1, thn).value.tc == tc2
    requires end == pos + 5 + SizeList(ElabList(CtxOf(p.m, f), tc1, thn).value.code)
    requires PointsList(CtxOf(p.m, f), tc1, thn, pos + 5) <= ps && EndsIn(CtxOf(p.m, f), tc3, end, ps)
    ensures Laid(p, f, tc0, env, ps)
    ensures EndsIn(CtxOf(p.m, f), tc2, end, ps)
    ensures Point(end, LabelSize(CtxOf(p.m, f), tc1, |tc0.labels|)) in ps
    ensures Point(end, FrameSize(CtxOf(p.m, f), tc0)) in ps
    ensures Point(pos + 5, FrameSize(CtxOf(p.m, f), tc0)) in ps
  {
    hide Nested, ElabList, PointsList, SizeList, CtxOf;
    var ctx := CtxOf(p.m, f);
    LaidFrame(p, f, tc, tc0, env, ps);
    ExitSize(ctx, tc0, tc1, tc2, tc3, IfLabel, sig, end, ps);
    ListEntry(ctx, tc1, thn, pos + 5, ps);
  }

  /** The places that an `if` with `else` jumps to. */
  lemma IfElseEnds(p: Prog, f: nat, tc: Checker, tc0: Checker, tc1: Checker, tc2: Checker, tc3: Checker, tc4: Checker,
                   tc5: Checker, sig: Sig, thn: ExprList, els: ExprList, env: Env, pos: nat, elsPos: nat, end: nat,
                   ps: set<Place>)
    requires Laid(p, f, tc, env, ps) && !tc.Top().unreachable && tc0.labels == tc.labels
    requires Entered(tc0, tc1, IfLabel, sig) && tc1.Top().limit + |sig.params| == |tc0.types|
    requires Entered(tc0, tc3, ElseLabel, sig) && tc3.Top().limit + |sig.params| == |tc0.types|
    requires Exits(tc0, tc1, tc2, tc5, IfLabel, sig) && Exits(tc0, tc3, tc4, tc5, ElseLabel, sig)
    requires ElabList(CtxOf(p.m, f), tc1, thn).Some? && ElabList(CtxOf(p.m, f), tc1, thn).value.tc == tc2
    requires elsPos == pos + 5 + SizeList(ElabList(CtxOf(p.m, f), tc1, thn).value.code) + 5
    requires ElabList(CtxOf(p.m, f), tc3, els).Some? && ElabList(CtxOf(p.m, f), tc3, els).value.tc == tc4
    requires end == elsPos + SizeList(ElabList(CtxOf(p.m, f), tc3, els).value.code)
    requires PointsList(CtxOf(p.m, f), tc1, thn, pos + 5) <= ps && PointsList(CtxOf(p.m, f), tc3, els, elsPos) <= ps
    requires EndsIn(CtxOf(p.m, f), tc2, elsPos - 5, ps) && EndsIn(CtxOf(p.m, f), tc5, end, ps)
    ensures Laid(p, f, tc0, env, ps)
    ensures EndsIn(CtxOf(p.m, f), tc4, end, ps)
    ensures Point(end, LabelSize(CtxOf(p.m, f), tc1, |tc0.labels|)) in ps
    ensures Point(end, LabelSize(CtxOf(p.m, f), tc3, |tc0.labels|)) in ps
    ensures Point(pos + 5, FrameSize(CtxOf(p.m, f), tc0)) in ps
    ensures Point(elsPos, FrameSize(CtxOf(p.m, f), tc0)) in ps
    ensures !tc2.Top().unreachable ==> Point(end, FrameSize(CtxOf(p.m, f), tc2)) in ps
  {
    hide Nested, ElabList, PointsList, SizeList, CtxOf;
    var ctx := CtxOf(p.m, f);
    LaidFrame(p, f, tc, tc0, env, ps);
    ExitSize(ctx, tc0, tc1, tc2, tc5, IfLabel, sig, end, ps);
    ExitSize(ctx, tc0, tc3, tc4, tc5, ElseLabel, sig, end, ps);
    ListEntry(ctx, tc1, thn, pos + 5, ps);
    ListEntry(ctx, tc3, els, elsPos, ps);
  }

  lemma IfElsePoints(ctx: Ctx, tc: Checker, sig: Sig, thn: ExprList, els: ExprList, pos: nat)
    requires OnIf(tc, sig).Some? && ElabList(ctx, OnIf(tc, sig).value, thn).Some?
    requires OnElse(ElabList(ctx, OnIf(tc, sig).value, thn).value.tc).Some?
    ensures var tc1 := OnIf(tc, sig).value;
            var t := ElabList(ctx, tc1, thn).value;
            var tc3 := OnElse(t.tc).value;
            var over := pos + 5 + SizeList(t.code);
            PointsExpr(ctx, tc, If(sig, thn, true, els), pos)
            == {Point(pos, FrameSize(ctx, tc))} + PointsList(ctx, tc1, thn, pos + 5)
               + ((if t.tc.Top().unreachable then {} else {Point(over, FrameSize(ctx, t.tc))})
                  + PointsList(ctx, tc3, els, over + 5))
  {
    hide PointsList, ElabList, OnElse, OnIf, SizeList, FrameSize;
    var tc1 := OnIf(tc, sig).value;
    var t := ElabList(ctx, tc1, thn).value;
    var over := pos + 5 + SizeList(t.code);
    var tc3 := OnElse(t.tc).value;
    assert PointsBody(ctx, Some(tc3), els, over + 5) == PointsList(ctx, tc3, els, over + 5);
    assert PointsElse(ctx, Some(tc1), thn, els, pos + 5)
        == (if t.tc.Top().unreachable then {} else {Point(over, FrameSize(ctx, t.tc))})
          + PointsList(ctx, tc3, els, over + 5);
  }

  lemma {:induction false} IfElseFlow(p: Prog, f: nat, tc: Checker, sig: Sig, thn: ExprList, els: ExprList, env: Env,
                                      pos: nat, ps: set<Place>, pt: Place)
    requires ExprLaid(p, f, tc, If(sig, thn, true, els), env, pos, ps) && !tc.Top().unreachable
    requires pt in PointsExpr(CtxOf(p.m, f), tc, If(sig, thn, true, els), pos) && pt.Point? && pt.size < TWO_32
    ensures Flow(p, f, ps, pt)
    decreases If(sig, thn, true, els), -1
  {
    hide CodeAt, Gen, GenList, ElabList, ElabExpr, PointsList, PointsExpr, Flow, BalancedIfs, CtxOf, Nested, OnIf,
         OnElse, OnEnd;
    hide SizeList, Entered, Exits, FrameSize, LabelSize, CallsLaid, PopSignature, Encode;
    var ctx := CtxOf(p.m, f);
    IfElseChecked(ctx, tc, sig, thn, els);
    var tc0, tc1 := PopSignature(tc, [I32]).value, OnIf(tc, sig).value;
    var t := ElabList(ctx, tc1, thn).value;
    var tc3 := OnElse(t.tc).value;
    var e := ElabList(ctx, tc3, els).value;
    var tc5 := OnEnd(e.tc).value;
    var elsPos := pos + 5 + SizeList(t.code) + 5;
    var end := elsPos + SizeList(e.code);
    IfElseCodeAt(p.code, env, t.code, e.code, pos);
    IfElsePoints(ctx, tc, sig, thn, els, pos);
    IfElseEnds(p, f, tc, tc0, tc1, t.tc, tc3, e.tc, tc5, sig, thn, els, env, pos, elsPos, end, ps);
    if pt in PointsList(ctx, tc1, thn, pos + 5) {
      BodyFlow(p, f, tc0, tc1, IfLabel, sig, thn, env, end, pos + 5, ps, pt);
    } else if pt in PointsList(ctx, tc3, els, elsPos) {
      BodyFlow(p, f, tc0, tc3, ElseLabel, sig, els, env, end, elsPos, ps, pt);
    } else if pt == Point(pos, FrameSize(ctx, tc)) {
      GuardFlow(p, f, ctx, tc, tc0, env, pos, elsPos, ps);
    } else {
      OverFlow(p, f, ps, pt, end);
    }
  }

  lemma OverFlow(p: Prog, f: nat, ps: set<Place>, pt: Place, end: nat)
    requires f < |p.m.funcs| == |p.offsets| && pt.Point? && CodeAt(p.code, pt.pc, Encode(IBr(end))) && end < TWO_32
    requires Point(end, pt.size) in ps
    ensures Flow(p, f, ps, pt)
  {
    hide CodeAt, Encode, Flow;
    FlowBy(p, f, ps, pt, IBr(end));
  }

  // Instructions without a body, from their place in a list.

  lemma SimpleExprFlow(p: Prog, f: nat, tc: Checker, op: Op, env: Env, pos: nat, ps: set<Place>, pt: Place)
    requires ExprLaid(p, f, tc, Simple(op), env, pos, ps) && !tc.Top().unreachable
    requires pt in PointsExpr(CtxOf(p.m, f), tc, Simple(op), pos) && pt.Point? && pt.size < TWO_32
    ensures Flow(p, f, ps, pt)
  {
    hide CodeAt, EncodeAll, Flow, CtxOf, EndsIn, OnOp, OpInstrs, FrameSize, Laid;
    SimpleFlow(p, f, tc, op, env, pos, ps);
  }

  lemma BrFlow(p: Prog, f: nat, tc: Checker, d: nat, env: Env, pos: nat, ps: set<Place>, pt: Place)
    requires ExprLaid(p, f, tc, Br(d), env, pos, ps) && !tc.Top().unreachable
    requires pt in PointsExpr(CtxOf(p.m, f), tc, Br(d), pos) && pt.Point? && pt.size < TWO_32
    ensures Flow(p, f, ps, pt)
  {
    hide CodeAt, JumpBytes, Flow, CtxOf, EndsIn, CheckSignature, SetUnreachable, LabelSize;
    BranchHeight(tc, d);
    JumpFlow(p, f, tc, d, env, pos, ps, pt);
  }

  lemma BrIfExprFlow(p: Prog, f: nat, tc: Checker, d: nat, env: Env, pos: nat, ps: set<Place>, pt: Place)
    requires ExprLaid(p, f, tc, BrIf(d), env, pos, ps) && !tc.Top().unreachable
    requires pt in PointsExpr(CtxOf(p.m, f), tc, BrIf(d), pos) && pt.Point? && pt.size < TWO_32
    ensures Flow(p, f, ps, pt)
  {
    hide CodeAt, Gen, Flow, CtxOf, EndsIn, OnBrIf, Laid, EncodeAll;
    BrIfFlow(p, f, tc, d, env, pos, ps, pt);
  }

  lemma CallExprFlow(p: Prog, f: nat, tc: Checker, g: nat, env: Env, pos: nat, ps: set<Place>, pt: Place)
    requires ExprLaid(p, f, tc, Call(g), env, pos, ps) && !tc.Top().unreachable
    requires pt in PointsExpr(CtxOf(p.m, f), tc, Call(g), pos) && pt.Point? && pt.size < TWO_32
    ensures Flow(p, f, ps, pt)
  {
    hide CodeAt, Encode, Flow, EndsIn, PopPush, LabelSize;
    CallFlow(p, f, tc, g, env, pos, ps);
  }

  lemma UnreachableFlow(p: Prog, f: nat, tc: Checker, env: Env, pos: nat, ps: set<Place>, pt: Place)
    requires ExprLaid(p, f, tc, Unreachable, env, pos, ps)
    requires pt in PointsExpr(CtxOf(p.m, f), tc, Unreachable, pos) && pt.Point?
    ensures Flow(p, f, ps, pt)
  {
    hide CodeAt, Encode, EncodeAll, Flow, EndsIn, LabelSize, SetUnreachable;
    EncodeOne(IUnreachable);
    FlowBy(p, f, ps, pt, IUnreachable);
  }

  lemma TableExprFlow(p: Prog, f: nat, tc: Checker, targets: seq<nat>, default: nat, env: Env, pos: nat,
                      ps: set<Place>, pt: Place)
    requires ExprLaid(p, f, tc, BrTable(targets, default), env, pos, ps) && !tc.Top().unreachable
    requires pt in PointsExpr(CtxOf(p.m, f), tc, BrTable(targets, default), pos) && pt.Point? && pt.size < TWO_32
    ensures Flow(p, f, ps, pt)
  {
    hide CodeAt, Gen, Flow, CtxOf, EndsIn, ElabBrTable, Laid;
    BrTableFlow(p, f, tc, targets, default, env, pos, ps);
  }

  lemma ReturnExprFlow(p: Prog, f: nat, tc: Checker, env: Env, pos: nat, ps: set<Place>, pt: Place)
    requires ExprLaid(p, f, tc, Return, env, pos, ps) && !tc.Top().unreachable
    requires pt in PointsExpr(CtxOf(p.m, f), tc, Return, pos) && pt.Point? && pt.size < TWO_32
    ensures Flow(p, f, ps, pt)
  {
    hide CodeAt, EncodeAll, Flow, CtxOf, EndsIn, OnReturn, Laid, ReturnDrop, ReturnInstrs, BrKeep;
    ReturnFlow(p, f, tc, env, pos, ps, pt);
  }

  lemma {:induction false} ExprFlow(p: Prog, f: nat, tc: Checker, e: Expr, env: Env, pos: nat, ps: set<Place>,
                                    pt: Place)
    requires ExprLaid(p, f, tc, e, env, pos, ps) && !tc.Top().unreachable
    requires pt in PointsExpr(CtxOf(p.m, f), tc, e, pos) && pt.Point? && pt.size < TWO_32
    ensures Flow(p, f, ps, pt)
    decreases e, 0
  {
    hide ExprLaid, PointsExpr, CtxOf, Flow;
    match e
    case Simple(op) => SimpleExprFlow(p, f, tc, op, env, pos, ps, pt);
    case Block(sig, body) => LabelFlow(p, f, tc, BlockLabel, sig, body, env, pos, ps, pt);
    case Loop(sig, body) => LabelFlow(p, f, tc, LoopLabel, sig, body, env, pos, ps, pt);
    case If(sig, thn, hasElse, els) =>
      if hasElse {
        IfElseFlow(p, f, tc, sig, thn, els, env, pos, ps, pt);
      } else {
        IfFlow(p, f, tc, sig, thn, els, env, pos, ps, pt);
      }
    case Br(d) => BrFlow(p, f, tc, d, env, pos, ps, pt);
    case BrIf(d) => BrIfExprFlow(p, f, tc, d, env, pos, ps, pt);
    case BrTable(targets, default) => TableExprFlow(p, f, tc, targets, default, env, pos, ps, pt);
    case Return => ReturnExprFlow(p, f, tc, env, pos, ps, pt);
    case Call(g) => CallExprFlow(p, f, tc, g, env, pos, ps, pt);
    case Unreachable => UnreachableFlow(p, f, tc, env, pos, ps, pt);
  }

  // ----- Whole functions -----------------------------------------------------------------------------------

  function Points(p: Prog, f: nat): set<Place>
    requires f < |p.m.funcs| == |p.offsets|
  {
    PointsFunc(p.m, f, p.offsets[f])
  }

  /** Every instruction of a function keeps to its frame and goes on at an instruction of it. */
  lemma FuncFlow(p: Prog, f: nat, c: FuncCode, pt: Place)
    requires Small(p) && f < |p.m.funcs| == |p.offsets| && CallsLaid(p) && FuncPlaced(p, c, f)
    requires pt in Points(p, f) && pt.Point? && pt.size < TWO_32
    ensures Flow(p, f, Points(p, f), pt)
  {
    hide CodeAt, EncodeAll, GenList, ElabList, EndFunction, ReturnInstrs, AllocaInstrs, SizeList, PointsList,
         BalancedIfs;
    hide Flow, DropPoints, CtxOf, CallsLaid, LocalCount;
    var fn, ctx := p.m.funcs[f], CtxOf(p.m, f);
    FuncParts(p, c, f);
    var start := p.offsets[f] + |EncodeAll(c.alloca)|;
    var end := start + SizeList(c.body);
    var tc0 := BeginFunction(fn.sig.results);
    var r := ElabList(ctx, tc0, fn.body).value;
    ListFrame(ctx, tc0, fn.body);
    FuncEnds(p, f, c, r.tc, start, end);
    if pt in PointsList(ctx, tc0, fn.body, start) {
      ListFlow(p, f, tc0, fn.body, Env([end], p.offsets), start, Points(p, f), pt);
    } else if pt in DropPoints(end, |ctx.locals| + |fn.sig.results|, |ctx.locals|, |fn.sig.results|) {
      ExitFlow(p, f, r.tc, end, Points(p, f), pt);
    } else {
      AllocaFlow(p, f, Points(p, f), pt);
    }
  }

  /** The frame just before and just behind a function's body. */
  lemma FuncEnds(p: Prog, f: nat, c: FuncCode, tc: Checker, start: nat, end: nat)
    requires Small(p) && f < |p.m.funcs| == |p.offsets|
    requires var fn, ctx := p.m.funcs[f], CtxOf(p.m, f);
             var r := ElabList(ctx, BeginFunction(fn.sig.results), fn.body);
             && r.Some? && r.value == Elab(c.body, tc) && TypeChecker.Frame(BeginFunction(fn.sig.results), tc)
             && EndFunction(tc).Some?
             && start == p.offsets[f] + |EncodeAll(AllocaInstrs(fn.decls))|
             && end == start + SizeList(c.body) && end < TWO_32
             && PointsList(ctx, BeginFunction(fn.sig.results), fn.body, start) <= Points(p, f)
             && DropPoints(end, |ctx.locals| + |fn.sig.results|, |ctx.locals|, |fn.sig.results|) <= Points(p, f)
    ensures Laid(p, f, BeginFunction(p.m.funcs[f].sig.results), Env([end], p.offsets), Points(p, f))
    ensures EndsIn(CtxOf(p.m, f), tc, end, Points(p, f))
    ensures Point(start, |CtxOf(p.m, f).locals|) in Points(p, f)
  {
    hide CodeAt, EncodeAll, ElabList, AllocaInstrs, SizeList, PointsList, CtxOf, EndFunction, Points;
    var fn, ctx := p.m.funcs[f], CtxOf(p.m, f);
    var tc0 := BeginFunction(fn.sig.results);
    if !tc.Top().unreachable {
      EndFunctionHeight(tc);
    }
    assert Point(end, |ctx.locals| + |fn.sig.results|) in DropPoints(end, |ctx.locals| + |fn.sig.results|,
                                                                     |ctx.locals|, |fn.sig.results|);
    ListEntry(ctx, tc0, fn.body, start, Points(p, f));
  }

  lemma AllocaFlow(p: Prog, f: nat, ps: set<Place>, pt: Place)
    requires f < |p.m.funcs| == |p.offsets| && p.m.funcs[f].decls != [] && LocalCount(p.m.funcs[f].decls) < TWO_32
    requires pt == Point(p.offsets[f], |p.m.funcs[f].sig.params|)
    requires CodeAt(p.code, p.offsets[f], EncodeAll(AllocaInstrs(p.m.funcs[f].decls)))
    requires Point(p.offsets[f] + |EncodeAll(AllocaInstrs(p.m.funcs[f].decls))|, |CtxOf(p.m, f).locals|) in ps
    ensures Flow(p, f, ps, pt)
  {
    hide CodeAt, Encode, EncodeAll, LocalCount, Flow;
    var n := LocalCount(p.m.funcs[f].decls);
    EncodeOne(IAlloca(n));
    FlowBy(p, f, ps, pt, IAlloca(n));
  }

  lemma ExitFlow(p: Prog, f: nat, tc: Checker, end: nat, ps: set<Place>, pt: Place)
    requires f < |p.m.funcs| == |p.offsets| && pt.Point? && pt.size < TWO_32
    requires Wf(tc) && |tc.labels| == 1 && tc.Top().limit == 0 && tc.Top().kind == FuncLabel
    requires tc.Top().results == p.m.funcs[f].sig.results && EndFunction(tc).Some?
    requires CodeAt(p.code, end, EncodeAll(ReturnInstrs(CtxOf(p.m, f), tc)))
    requires var l, k := |CtxOf(p.m, f).locals|, |p.m.funcs[f].sig.results|;
             DropPoints(end, l + k, l, k) <= ps && pt in DropPoints(end, l + k, l, k)
    ensures Flow(p, f, ps, pt)
  {
    hide CodeAt, EncodeAll, Encode, CtxOf, Flow, DropPoints, DropKeepInstrs, EndFunction;
    var l, k := |CtxOf(p.m, f).locals|, |p.m.funcs[f].sig.results|;
    if !tc.Top().unreachable {
      EndFunctionHeight(tc);
    }
    EncodeSnoc(DropKeepInstrs(l, k), IReturn);
    DropFlow(p, f, ps, end, l + k, l, k, IReturn, pt);
  }

  // ----- Runs --------------------------------------------------------------------------------------------------

  /** The active function is `f` with its frame starting at `base`, and `f0` was called first. Every
      return offset is the point behind a call, with the callee's results where its arguments were. */
  ghost predicate Frames(p: Prog, calls: seq<nat>, base: int, f: nat, f0: nat)
    requires |p.m.funcs| == |p.offsets|
    decreases |calls|, 0
  {
    && f < |p.m.funcs|
    && if calls == [] then base == 0 && f == f0
       else CalledFrom(p, calls[..|calls| - 1], calls[|calls| - 1], base, f, f0)
  }

  ghost predicate CalledFrom(p: Prog, calls: seq<nat>, pc: nat, base: int, f: nat, f0: nat)
    requires f < |p.m.funcs| == |p.offsets|
    decreases |calls|, 1
  {
    exists g: nat, below: nat :: Returns(p, pc, base, f, g, below) && Frames(p, calls, below, g, f0)
  }

  predicate Returns(p: Prog, pc: nat, base: int, f: nat, g: nat, below: nat)
    requires |p.m.funcs| == |p.offsets| && f < |p.m.funcs|
  {
    && g < |p.m.funcs|
    && below <= base
    && Point(pc, base - below + |p.m.funcs[f].sig.results|) in Points(p, g)
  }

  /** At an emitted instruction of `f`, with the value stack as high as the validator has it there. */
  ghost predicate AtPoint(p: Prog, s: Config, f0: nat, f: nat, base: nat)
    requires |p.m.funcs| == |p.offsets|
  {
    && f < |p.m.funcs|
    && base <= |s.stack| <= p.lim.values
    && |s.globals| == |p.m.globals|
    && Frames(p, s.calls, base, f, f0)
    && Point(s.pc, |s.stack| - base) in Points(p, f)
  }

  ghost predicate Steady(p: Prog, s: Config, f0: nat)
    requires f0 < |p.m.funcs| == |p.offsets|
  {
    match s.status
    case Running => exists f: nat, base: nat :: AtPoint(p, s, f0, f, base)
    case Finished => |s.stack| == |p.m.funcs[f0].sig.results|
    case Fault => false
    case _ => true
  }

  /** All functions are in the stream. */
  ghost predicate Placed(p: Prog, cs: seq<FuncCode>) {
    && Small(p)
    && |cs| == |p.m.funcs| == |p.offsets|
    && CallsLaid(p)
    && forall f :: 0 <= f < |cs| ==> FuncPlaced(p, cs[f], f)
  }

  lemma FuncEntry(p: Prog, cs: seq<FuncCode>, f: nat)
    requires Placed(p, cs) && f < |cs|
    ensures Point(p.offsets[f], |p.m.funcs[f].sig.params|) in Points(p, f)
  {
    hide CodeAt, EncodeAll, GenList, ElabList, EndFunction, ReturnInstrs, SizeList, PointsList, BalancedIfs, DropPoints;
    hide CallsLaid;
    assert FuncPlaced(p, cs[f], f);
    var c, fn, ctx := cs[f], p.m.funcs[f], CtxOf(p.m, f);
    FuncParts(p, c, f);
    if fn.decls == [] {
      LocalCountNone();
      var start := p.offsets[f] + |EncodeAll(c.alloca)|;
      var tc0 := BeginFunction(fn.sig.results);
      ListFrame(ctx, tc0, fn.body);
      FuncEnds(p, f, c, ElabList(ctx, tc0, fn.body).value.tc, start, start + SizeList(c.body));
      NoCode();
    }
  }

  lemma NoCode()
    ensures EncodeAll([]) == []
  {
  }

  /** A step that stays in its frame: globals and callers are as before. */
  lemma StaysAt(p: Prog, s: Config, t: Config, f0: nat, f: nat, base: nat)
    requires f0 < |p.m.funcs| == |p.offsets| && AtPoint(p, s, f0, f, base)
    requires t.status == Running && t.calls == s.calls && |t.globals| == |s.globals|
    requires base <= |t.stack| <= p.lim.values && Point(t.pc, |t.stack| - base) in Points(p, f)
    ensures Steady(p, t, f0)
  {
    hide Frames, Points;
    assert AtPoint(p, t, f0, f, base);
  }

  lemma CallSteady(p: Prog, cs: seq<FuncCode>, s: Config, f0: nat, f: nat, base: nat, g: nat, next: nat)
    requires Placed(p, cs) && f0 < |cs| && g < |cs| && AtPoint(p, s, f0, f, base) && s.status == Running
    requires var n, sig := |s.stack| - base, p.m.funcs[g].sig;
             |sig.params| <= n && Point(next, n - |sig.params| + |sig.results|) in Points(p, f)
    ensures Steady(p, s.(pc := p.offsets[g], calls := s.calls + [next]), f0)
  {
    hide Points, FuncPlaced, CallsLaid;
    FuncEntry(p, cs, g);
    var base' := |s.stack| - |p.m.funcs[g].sig.params|;
    var calls := s.calls + [next];
    assert calls[..|s.calls|] == s.calls;
    assert Returns(p, next, base', g, f, base);
    assert CalledFrom(p, s.calls, next, base', g, f0);
    assert AtPoint(p, s.(pc := p.offsets[g], calls := calls), f0, g, base');
  }

  lemma ReturnSteady(p: Prog, s: Config, f0: nat, f: nat, base: nat)
    requires f0 < |p.m.funcs| == |p.offsets| && AtPoint(p, s, f0, f, base) && s.status == Running
    requires |s.stack| - base == |p.m.funcs[f].sig.results|
    ensures Steady(p, Execute(p.code, p.lim, s, IReturn), f0)
  {
    hide Points;
    if s.calls != [] {
      var pc, calls := s.calls[|s.calls| - 1], s.calls[..|s.calls| - 1];
      assert CalledFrom(p, calls, pc, base, f, f0);
      var g: nat, below: nat :| Returns(p, pc, base, f, g, below) && Frames(p, calls, below, g, f0);
      assert AtPoint(p, s.(pc := pc, calls := calls), f0, g, below);
    }
  }

  /** What the machine makes of an instruction that keeps control in its frame. */
  lemma ExecuteFlows(p: Prog, s: Config, f: nat, base: nat, i: Instr)
    requires f < |p.m.funcs| == |p.offsets| && |s.globals| == |p.m.globals| && s.status == Running
    requires base <= |s.stack| <= p.lim.values
    requires !i.ICall? && !i.IReturn? && !i.IBrTable?
    requires Flows(p, f, Points(p, f), Point(s.pc, |s.stack| - base), i)
    ensures var t := Execute(p.code, p.lim, s.(pc := s.pc + InstrSize(i)), i);
            || t.status.Trapped? || t.Exhausted()
            || (&& t.status == Running && t.calls == s.calls && |t.globals| == |s.globals|
                && base <= |t.stack| <= p.lim.values && Point(t.pc, |t.stack| - base) in Points(p, f))
  {
    hide Points, InstrSize, ApplyBin, DropKeep;
  }

  lemma TableSteady(p: Prog, s: Config, f0: nat, f: nat, base: nat, i: Instr)
    requires f0 < |p.m.funcs| == |p.offsets| && AtPoint(p, s, f0, f, base) && s.status == Running
    requires i.IBrTable? && Flows(p, f, Points(p, f), Point(s.pc, |s.stack| - base), i)
    ensures Steady(p, Execute(p.code, p.lim, s.(pc := s.pc + InstrSize(i)), i), f0)
  {
    hide Points, Frames, DropKeep, ReadU32, InstrSize;
    var key := Pick(s, 1) % TWO_32;
    var k := if key >= i.count then i.count else key;
    assert EntryFlows(p, Points(p, f), i.table + 12 * k, |s.stack| - base - 1);
    var t := Execute(p.code, p.lim, s.(pc := s.pc + InstrSize(i)), i);
    StaysAt(p, s, t, f0, f, base);
  }

  lemma ExecuteSteady(p: Prog, cs: seq<FuncCode>, s: Config, f0: nat, f: nat, base: nat, i: Instr)
    requires Placed(p, cs) && f0 < |cs| && AtPoint(p, s, f0, f, base) && s.status == Running
    requires Flows(p, f, Points(p, f), Point(s.pc, |s.stack| - base), i)
    ensures Steady(p, Execute(p.code, p.lim, s.(pc := s.pc + InstrSize(i)), i), f0)
  {
    hide Points, Frames, InstrSize, FuncPlaced, CallsLaid;
    var s' := s.(pc := s.pc + InstrSize(i));
    if i.IBrTable? {
      TableSteady(p, s, f0, f, base, i);
    } else if i.ICall? {
      var g :| 0 <= g < |p.m.funcs| && i.target == p.offsets[g] && |p.m.funcs[g].sig.params| <= |s.stack| - base
        && Point(s'.pc, |s.stack| - base - |p.m.funcs[g].sig.params| + |p.m.funcs[g].sig.results|) in Points(p, f);
      CallSteady(p, cs, s, f0, f, base, g, s'.pc);
    } else if i.IReturn? {
      ReturnSteady(p, s, f0, f, base);
    } else {
      ExecuteInFrame(p, s, f0, f, base, i);
    }
  }

  lemma ExecuteInFrame(p: Prog, s: Config, f0: nat, f: nat, base: nat, i: Instr)
    requires f0 < |p.m.funcs| == |p.offsets| && AtPoint(p, s, f0, f, base) && s.status == Running
    requires !i.ICall? && !i.IReturn? && !i.IBrTable?
    requires Flows(p, f, Points(p, f), Point(s.pc, |s.stack| - base), i)
    ensures Steady(p, Execute(p.code, p.lim, s.(pc := s.pc + InstrSize(i)), i), f0)
  {
    hide Points, Frames, InstrSize, Execute, Flows;
    ExecuteFlows(p, s, f, base, i);
    var t := Execute(p.code, p.lim, s.(pc := s.pc + InstrSize(i)), i);
    if !t.status.Trapped? && !t.Exhausted() {
      StaysAt(p, s, t, f0, f, base);
    }
  }

  /** One step of the machine keeps the heights. */
  lemma StepSteady(p: Prog, cs: seq<FuncCode>, s: Config, f0: nat)
    requires Placed(p, cs) && f0 < |cs| && Steady(p, s, f0)
    ensures Steady(p, Step(p.code, p.lim, s), f0)
  {
    hide Points, Frames, FuncPlaced, Flows, CodeAt, Encode, Execute, InstrSize, CallsLaid;
    if s.status == Running {
      var f: nat, base: nat :| AtPoint(p, s, f0, f, base);
      var pt := Point(s.pc, |s.stack| - base);
      assert FuncPlaced(p, cs[f], f);
      FuncFlow(p, f, cs[f], pt);
      var i :| CodeAt(p.code, pt.pc, Encode(i)) && InRange(i) && Flows(p, f, Points(p, f), pt, i);
      FetchEncode(p.code, s.pc, i);
      ExecuteSteady(p, cs, s, f0, f, base, i);
    }
  }

  /** Whole runs of any validated module, whatever its drop/keep counts: every reached program counter
      is an emitted instruction, at the static height, and nothing undefined ever happens. */
  lemma {:induction false} RunSteady(p: Prog, cs: seq<FuncCode>, f: nat, args: seq<Word>, globals: seq<Word>, n: nat)
    requires Placed(p, cs) && Callable(p.m, p.lim, f, args, globals)
    ensures Steady(p, Run(p.code, p.lim, Start(p, f, args, globals), n), f)
    decreases n
  {
    hide Step, AtPoint, FuncPlaced, CallsLaid;
    var s := Start(p, f, args, globals);
    if n == 0 {
      StartSteady(p, cs, f, args, globals);
    } else {
      RunSteady(p, cs, f, args, globals, n - 1);
      RunAdd(p.code, p.lim, s, n - 1, 1);
      var t := Run(p.code, p.lim, s, n - 1);
      assert Run(p.code, p.lim, t, 1) == Step(p.code, p.lim, t) by {
        assert Run(p.code, p.lim, Step(p.code, p.lim, t), 0) == Step(p.code, p.lim, t);
      }
      StepSteady(p, cs, t, f);
    }
  }

  lemma StartSteady(p: Prog, cs: seq<FuncCode>, f: nat, args: seq<Word>, globals: seq<Word>)
    requires Placed(p, cs) && Callable(p.m, p.lim, f, args, globals)
    ensures Steady(p, Start(p, f, args, globals), f)
  {
    hide Points, FuncPlaced, CallsLaid;
    FuncEntry(p, cs, f);
    assert AtPoint(p, Start(p, f, args, globals), f, f, 0);
  }

  /** A module that validates and has no unbalanced `if`, in sizes that fit 32 bits: multi-value labels
      are allowed here. */
  ghost predicate Validated(m: Module, cs: seq<FuncCode>, base: seq<Byte>, lim: Limits) {
    && ElabFuncs(m, |m.funcs|) == Some(cs)
    && Small(Linked(m, cs, base, lim))
    && forall f :: 0 <= f < |m.funcs| ==> BalancedIfs(m.funcs[f].body) && LocalCount(m.funcs[f].decls) < TWO_32
  }

  lemma ValidatedPlaced(m: Module, cs: seq<FuncCode>, base: seq<Byte>, lim: Limits)
    requires Validated(m, cs, base, lim)
    ensures Placed(Linked(m, cs, base, lim), cs)
  {
    hide ElabFunc, ElabFuncs, GenFuncs, GenFunc, FuncPos, BalancedIfs;
    var p := Linked(m, cs, base, lim);
    forall f | 0 <= f < |cs| ensures FuncPlaced(p, cs[f], f) && p.offsets[f] < TWO_32 {
      ElabFuncsAt(m, cs, |m.funcs|, f);
      LinkedAt(p.code, p.offsets, cs, |base|, f);
    }
  }

  /** The heights hold for the code that reading a module leaves behind. */
  lemma ValidatedSteady(m: Module, cs: seq<FuncCode>, base: seq<Byte>, lim: Limits, f: nat, args: seq<Word>,
                        globals: seq<Word>, n: nat)
    requires Validated(m, cs, base, lim) && Callable(m, lim, f, args, globals)
    ensures var p := Linked(m, cs, base, lim);
            |p.m.funcs| == |p.offsets| && Steady(p, Run(p.code, p.lim, Start(p, f, args, globals), n), f)
  {
    hide Validated, Steady, FuncPlaced, CallsLaid;
    ValidatedPlaced(m, cs, base, lim);
    RunSteady(Linked(m, cs, base, lim), cs, f, args, globals, n);
  }
}
