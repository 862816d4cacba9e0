/** Straight-line instructions and branches: each emitted sequence does on the frame what the
    structured semantics does on locals and operands. */
module SimulateOps {
  import opened Syntax
  import opened Bytecode
  import opened Machine
  import opened TypeChecker
  import opened Elaborate
  import opened Layout
  import opened DropKeepSpec
  import opened Simulation
  import S = Semantics

  /** Operand sizes that fit the stream's 32-bit operands. */
  predicate Small(p: Prog) {
    p.lim.values < TWO_32 && |p.code| < TWO_32 && |p.m.globals| < TWO_32
  }

  /** In reachable code a popped signature really was on the innermost operand stack. */
  lemma PopHeight(tc: Checker, sig: seq<Type>)
    requires Wf(tc) && !tc.Top().unreachable && PopSignature(tc, sig).Some?
    ensures tc.Top().limit + |sig| <= |tc.types|
    ensures PopSignature(tc, sig).value == tc.(types := tc.types[..|tc.types| - |sig|])
  {
  }

  lemma PopPushHeight(tc: Checker, params: seq<Type>, results: seq<Type>)
    requires Wf(tc) && !tc.Top().unreachable && PopPush(tc, params, results).Some?
    ensures tc.Top().limit + |params| <= |tc.types|
    ensures PopPush(tc, params, results).value == tc.(types := tc.types[..|tc.types| - |params|] + results)
  {
    PopHeight(tc, params);
  }

  /** How many operands an instruction takes and leaves. */
  function Takes(op: Op): nat {
    match op
    case Binary(_) => 2
    case Drop => 1
    case Select => 3
    case LocalSet(_) => 1
    case LocalTee(_) => 1
    case GlobalSet(_) => 1
    case _ => 0
  }

  function Leaves(op: Op): nat {
    match op
    case Drop => 0
    case Nop => 0
    case LocalSet(_) => 0
    case GlobalSet(_) => 0
    case _ => 1
  }

  lemma OpHeight(ctx: Ctx, tc: Checker, op: Op)
    requires Wf(tc) && !tc.Top().unreachable && OnOp(ctx, tc, op).Some?
    ensures tc.Top().limit + Takes(op) <= |tc.types|
    ensures |OnOp(ctx, tc, op).value.types| == |tc.types| - Takes(op) + Leaves(op)
    ensures OnOp(ctx, tc, op).value.labels == tc.labels
    ensures op.LocalGet? || op.LocalSet? || op.LocalTee? ==> op.x < |ctx.locals|
    ensures op.GlobalGet? || op.GlobalSet? ==> op.g < |ctx.globals|
  {
    match op
    case Binary(bin) => PopPushHeight(tc, [BinParam(bin), BinParam(bin)], [BinResult(bin)]);
    case LocalSet(x) => PopHeight(tc, [ctx.locals[x]]);
    case LocalTee(x) => PopPushHeight(tc, [ctx.locals[x]], [ctx.locals[x]]);
    case GlobalSet(g) => PopHeight(tc, [ctx.globals[g].ty]);
    case _ =>
  }

  /** The instruction for `op` when `height` operands are on the frame's operand stacks and `locals`
      slots below them. */
  function OpInstr(op: Op, height: nat, locals: nat): Instr {
    match op
    case Const(ty, v) => ConstInstr(ty, v)
    case Binary(bin) => IBin(bin)
    case Drop => IDrop
    case Select => ISelect
    case Nop => INop
    case LocalGet(x) => IGetLocal(height + locals - x)
    case LocalSet(x) => ISetLocal(height - 1 + locals - x)
    case LocalTee(x) => ITeeLocal(height + locals - x)
    case GlobalGet(g) => IGetGlobal(g)
    case GlobalSet(g) => ISetGlobal(g)
  }

  predicate Operable(op: Op, st: S.State) {
    && Takes(op) <= |st.stack|
    && (op.LocalGet? || op.LocalSet? || op.LocalTee? ==> op.x < |st.locals|)
    && (op.GlobalGet? || op.GlobalSet? ==> op.g < |st.globals|)
  }

  /** Stack, locals and globals after one straight-line instruction. */
  predicate OpDone(t: Config, o: S.Outcome, pc: nat, below: seq<Word>, outer: seq<Word>, calls: seq<nat>) {
    || t.Exhausted()
    || (o.Trapped? && t.status == Trapped(o.kind))
    || (o.Normal? && t == Conf(pc, below, outer, o.state, calls))
  }

  lemma ExecuteLocal(p: Prog, op: Op, below: seq<Word>, outer: seq<Word>, st: S.State, calls: seq<nat>, pc: nat)
    requires op.LocalGet? || op.LocalSet? || op.LocalTee?
    requires Operable(op, st)
    ensures OpDone(Execute(p.code, p.lim, Conf(pc, below, outer, st, calls),
                           OpInstr(op, |outer| + |st.stack|, |st.locals|)),
                   S.ExecOp(op, st), pc, below, outer, calls)
  {
    hide Slots;
    match op
    case LocalGet(x) =>
      FrameLocal(below, st.locals, outer, st.stack, x, 0);
      FramePush(below, st.locals, outer, st.stack, st.locals[x]);
    case LocalSet(x) =>
      FramePop(below, st.locals, outer, st.stack, 1);
      FrameLocal(below, st.locals, outer, S.Under(st.stack, 1), x, S.Top(st.stack));
    case LocalTee(x) =>
      FramePop(below, st.locals, outer, st.stack, 1);
      FrameLocal(below, st.locals, outer, st.stack, x, S.Top(st.stack));
  }

  lemma ExecuteOp(p: Prog, op: Op, below: seq<Word>, outer: seq<Word>, st: S.State, calls: seq<nat>, pc: nat)
    requires Operable(op, st)
    ensures OpDone(Execute(p.code, p.lim, Conf(pc, below, outer, st, calls),
                           OpInstr(op, |outer| + |st.stack|, |st.locals|)),
                   S.ExecOp(op, st), pc, below, outer, calls)
  {
    hide Slots;
    var rest := S.Under(st.stack, Takes(op));
    FramePop(below, st.locals, outer, st.stack, Takes(op));
    match op
    case Const(ty, v) =>
      ConstValue(ty, v);
      FramePush(below, st.locals, outer, st.stack, ConstWord(ty, v));
    case Binary(bin) =>
      var r := ApplyBin(bin, st.stack[|st.stack| - 2], st.stack[|st.stack| - 1]);
      if r.Some? {
        FramePush(below, st.locals, outer, rest, r.value);
      }
    case Select =>
      FramePush(below, st.locals, outer, rest, st.stack[|st.stack| - 3]);
      FramePush(below, st.locals, outer, rest, st.stack[|st.stack| - 2]);
    case GlobalGet(g) => FramePush(below, st.locals, outer, st.stack, st.globals[g]);
    case LocalGet(_) => ExecuteLocal(p, op, below, outer, st, calls, pc);
    case LocalSet(_) => ExecuteLocal(p, op, below, outer, st, calls, pc);
    case LocalTee(_) => ExecuteLocal(p, op, below, outer, st, calls, pc);
    case _ =>
  }

  /** The 8-byte constants are stored as two words. */
  lemma ConstValue(ty: Type, v: Word)
    ensures ty == I32 || ty == F32 ==> v % TWO_32 % TWO_32 == ConstWord(ty, v)
    ensures v % TWO_32 % TWO_32 + TWO_32 * ((v / TWO_32) % TWO_32) == v
  {
  }

  lemma OpInstrsAre(ctx: Ctx, tc: Checker, op: Op)
    requires Wf(tc) && !tc.Top().unreachable && OnOp(ctx, tc, op).Some? && op != Nop
    ensures OpInstrs(ctx, tc, OnOp(ctx, tc, op).value, op) == [OpInstr(op, |tc.types|, |ctx.locals|)]
  {
    hide OnOp, ConstInstr;
    OpHeight(ctx, tc, op);
  }

  lemma OpInRange(p: Prog, op: Op, below: seq<Word>, outer: seq<Word>, st: S.State)
    requires Small(p) && Operable(op, st) && |st.globals| == |p.m.globals|
    requires |below| + |st.locals| + |outer| + |st.stack| <= p.lim.values
    ensures InRange(OpInstr(op, |outer| + |st.stack|, |st.locals|))
  {
  }

  lemma OpSized(p: Prog, ctx: Ctx, tc: Checker, op: Op, below: seq<Word>, outer: seq<Word>, st: S.State)
    requires Sized(p, ctx, tc, below, outer, st) && OnOp(ctx, tc, op).Some?
    ensures Operable(op, st)
    ensures S.ExecOp(op, st).Normal? || S.ExecOp(op, st).Trapped?
    ensures var o := S.ExecOp(op, st);
            o.Normal? && |below| + |o.state.locals| + (|outer| + |o.state.stack|) <= p.lim.values ==>
            Sized(p, ctx, OnOp(ctx, tc, op).value, below, outer, o.state)
  {
    OpHeight(ctx, tc, op);
    OpFrame(ctx, tc, op);
    hide OnOp;
  }

  /** Execution of a straight-line instruction never leaves more on the stack than fits. */
  lemma StepBounded(code: seq<Byte>, lim: Limits, s: Config, op: Op, height: nat, locals: nat)
    requires |s.stack| <= lim.values
    ensures var t := Execute(code, lim, s, OpInstr(op, height, locals)); t.Exhausted() || |t.stack| <= lim.values
  {
  }

  lemma SimOp(p: Prog, ctx: Ctx, tc: Checker, op: Op, below: seq<Word>, outer: seq<Word>, st: S.State,
              calls: seq<nat>, pos: nat)
    requires Small(p) && Sized(p, ctx, tc, below, outer, st) && |st.globals| == |p.m.globals|
    requires OnOp(ctx, tc, op).Some?
    requires CodeAt(p.code, pos, EncodeAll(OpInstrs(ctx, tc, OnOp(ctx, tc, op).value, op)))
    ensures var s := Conf(pos, below, outer, st, calls);
            var o := S.ExecOp(op, st);
            var next := pos + |EncodeAll(OpInstrs(ctx, tc, OnOp(ctx, tc, op).value, op))|;
            || Exhausts(p, s)
            || (o.Trapped? && Traps(p, s, o.kind))
            || (o.Normal? && Sized(p, ctx, OnOp(ctx, tc, op).value, below, outer, o.state)
                && Reaches(p, s, Conf(next, below, outer, o.state, calls), 0))
  {
    hide OnOp, Encode, Execute, OpInstr, Slots, CodeAt, Operable, InRange, Run;
    hide OpDone, Wf, EncodeAll, S.ExecOp;
    var s := Conf(pos, below, outer, st, calls);
    OpSized(p, ctx, tc, op, below, outer, st);
    if op == Nop {
      SimNop(p, s, ctx, tc);
    } else {
      OpInstrsAre(ctx, tc, op);
      var i := OpInstr(op, |tc.types|, |ctx.locals|);
      EncodeOne(i);
      OpInRange(p, op, below, outer, st);
      StepInstr(p, s, i);
      var s1 := s.(pc := pos + InstrSize(i));
      var t := Execute(p.code, p.lim, s1, i);
      ExecuteOp(p, op, below, outer, st, calls, pos + InstrSize(i));
      SlotsSize(below, outer, st);
      StepBounded(p.code, p.lim, s1, op, |tc.types|, |ctx.locals|);
      OpReached(p, s, t, S.ExecOp(op, st), pos + InstrSize(i), below, outer, calls);
    }
  }

  lemma SimNop(p: Prog, s: Config, ctx: Ctx, tc: Checker)
    ensures Reaches(p, s, s, 0) && EncodeAll(OpInstrs(ctx, tc, OnOp(ctx, tc, Nop).value, Nop)) == []
    ensures OnOp(ctx, tc, Nop) == Some(tc)
    ensures forall st :: S.ExecOp(Nop, st) == S.Normal(st)
  {
    ReachesNow(p, s);
  }

  lemma SlotsSize(below: seq<Word>, outer: seq<Word>, st: S.State)
    ensures |Slots(below, st.locals, outer, st.stack)| == |below| + |st.locals| + (|outer| + |st.stack|)
  {
  }

  lemma OpReached(p: Prog, s: Config, t: Config, o: S.Outcome, pc: nat, below: seq<Word>, outer: seq<Word>,
                  calls: seq<nat>)
    requires Reaches(p, s, t, 1) && OpDone(t, o, pc, below, outer, calls)
    requires t.Exhausted() || |t.stack| <= p.lim.values
    ensures || Exhausts(p, s)
            || (o.Trapped? && Traps(p, s, o.kind))
            || (o.Normal? && |below| + |o.state.locals| + (|outer| + |o.state.stack|) <= p.lim.values
                && Reaches(p, s, Conf(pc, below, outer, o.state, calls), 0))
  {
    hide Run;
    if o.Normal? {
      SlotsSize(below, outer, o.state);
    }
  }

  // ----- Branches ------------------------------------------------------------------------------

  lemma SimDropKeep(p: Prog, s: Config, drop: nat, keep: nat)
    requires s.status == Running && CodeAt(p.code, s.pc, EncodeAll(DropKeepInstrs(drop, keep)))
    requires drop + keep <= |s.stack| < TWO_32 && InOrder(drop, keep)
    ensures Reaches(p, s, s.(pc := s.pc + |EncodeAll(DropKeepInstrs(drop, keep))|,
                             stack := Intended(s.stack, drop, keep)), 0)
  {
    hide Encode, CodeAt, Intended, DropKeep, Fetch, Reaches;
    InOrderIntended(s.stack, drop, keep);
    if drop == 0 {
      IntendedNone(s.stack, keep);
      ReachesNow(p, s);
    } else {
      var i := DropKeepInstrs(drop, keep)[0];
      EncodeOne(i);
      StepInstr(p, s, i);
      if drop == 1 && keep == 0 {
        IntendedDrop(s.stack);
      }
      ReachesLess(p, s, s.(pc := s.pc + InstrSize(i), stack := Intended(s.stack, drop, keep)), 1, 0);
    }
  }

  lemma IntendedNone(st: seq<Word>, keep: nat)
    requires keep <= |st|
    ensures Intended(st, 0, keep) == st
  {
  }

  lemma IntendedDrop(st: seq<Word>)
    requires 1 <= |st|
    ensures Intended(st, 1, 0) == st[..|st| - 1]
  {
  }

  /** `s` has just finished emitting a branch: the label's values on top of the operands below it. */
  lemma SimJump(p: Prog, ctx: Ctx, tc: Checker, depth: nat, env: Env, below: seq<Word>, outer: seq<Word>,
                st: S.State, calls: seq<nat>, pos: nat)
    requires Small(p) && Sized(p, ctx, tc, below, outer, st)
    requires depth < |tc.labels| == |env.labels| && BrKeep(tc, depth) <= |st.stack|
    requires CodeAt(p.code, pos, JumpBytes(env, JumpTo(tc, depth))) && InOrder(BrDropNat(tc, depth), BrKeep(tc, depth))
    requires env.labels[|env.labels| - 1 - depth] < TWO_32
    ensures var keep, limit := BrKeep(tc, depth), tc.LabelAt(depth).limit;
            && limit <= |outer|
            && |below| + |st.locals| + (limit + keep) <= p.lim.values
            && Reaches(p, Conf(pos, below, outer, st, calls),
                       Conf(env.labels[|env.labels| - 1 - depth], below, outer[..limit],
                            st.(stack := S.Take(st.stack, keep)), calls), 1)
  {
    hide Encode, CodeAt, EncodeAll, DropKeepInstrs, Intended, Slots, InOrder, S.Take, Fetch, Step, Reaches;
    var keep, limit := BrKeep(tc, depth), tc.LabelAt(depth).limit;
    LimitBelow(tc.labels, |tc.labels| - 1 - depth);
    var drop := BrDropNat(tc, depth);
    var s := Conf(pos, below, outer, st, calls);
    SlotsSize(below, outer, st);
    var j := JumpTo(tc, depth);
    CodeAtSplit(p.code, pos, DropKeepCode(j), Encode(IBr(env.labels[|env.labels| - 1 - depth])));
    SimDropKeep(p, s, drop, keep);
    FrameDrop(below, st.locals, outer, st.stack, limit, keep);
    var s1 := Conf(pos + |DropKeepCode(j)|, below, outer[..limit], st.(stack := S.Take(st.stack, keep)), calls);
    var br := IBr(env.labels[|env.labels| - 1 - depth]);
    StepInstr(p, s1, br);
    ReachesTrans(p, s, s1, s1.(pc := env.labels[|env.labels| - 1 - depth]), 0, 1);
  }

  /** The drop count of a branch in reachable, validated code. */
  function BrDropNat(tc: Checker, depth: nat): nat
    requires depth < |tc.labels|
  {
    var d := BrDrop(tc, depth);
    if d < 0 then 0 else d
  }

  lemma SimReturn(p: Prog, ctx: Ctx, tc: Checker, below: seq<Word>, outer: seq<Word>, st: S.State,
                  calls: seq<nat>, pos: nat)
    requires Small(p) && Sized(p, ctx, tc, below, outer, st)
    requires |tc.labels[0].results| == BrKeep(tc, |tc.labels| - 1) <= |st.stack|
    requires CodeAt(p.code, pos, EncodeAll(ReturnInstrs(ctx, tc)))
    requires InOrder(|tc.types| + |ctx.locals| - BrKeep(tc, |tc.labels| - 1), BrKeep(tc, |tc.labels| - 1))
    ensures var keep := BrKeep(tc, |tc.labels| - 1);
            && |below| + keep <= p.lim.values
            && Reaches(p, Conf(pos, below, outer, st, calls),
                       ReturnConf(below + S.Take(st.stack, keep), st.globals, calls), 1)
  {
    hide Encode, CodeAt, EncodeAll, Intended, Slots, DropKeepInstrs;
    var keep := BrKeep(tc, |tc.labels| - 1);
    var drop := |tc.types| + |ctx.locals| - keep;
    ReturnFrom(p, ctx, tc, below, outer, st, calls, pos, drop, keep);
  }

  /** Back in the caller, or finished when there is none. */
  function ReturnConf(stack: seq<Word>, globals: seq<Word>, calls: seq<nat>): Config {
    if calls == [] then Config(Finished, 0, stack, [], globals)
    else Config(Running, calls[|calls| - 1], stack, calls[..|calls| - 1], globals)
  }

  lemma ReturnFrom(p: Prog, ctx: Ctx, tc: Checker, below: seq<Word>, outer: seq<Word>, st: S.State,
                   calls: seq<nat>, pos: nat, drop: nat, keep: nat)
    requires Small(p) && |below| + |st.locals| + (|outer| + |st.stack|) <= p.lim.values
    requires tc.labels != [] && keep == BrKeep(tc, |tc.labels| - 1) <= |st.stack|
    requires drop == ReturnDrop(ctx, tc) == |outer| + |st.stack| + |st.locals| - keep
    requires InOrder(drop, keep)
    requires CodeAt(p.code, pos, EncodeAll(ReturnInstrs(ctx, tc)))
    ensures Reaches(p, Conf(pos, below, outer, st, calls),
                    ReturnConf(below + S.Take(st.stack, keep), st.globals, calls), 1)
  {
    hide Encode, CodeAt, EncodeAll, Intended, Slots, DropKeepInstrs;
    var s := Conf(pos, below, outer, st, calls);
    SlotsSize(below, outer, st);
    var dk := EncodeAll(DropKeepInstrs(drop, keep));
    EncodeSnoc(DropKeepInstrs(drop, keep), IReturn);
    CodeAtSplit(p.code, pos, dk, Encode(IReturn));
    SimDropKeep(p, s, drop, keep);
    FrameReturn(below, st.locals, outer, st.stack, keep);
    var s1 := s.(pc := pos + |dk|, stack := below + S.Take(st.stack, keep));
    StepInstr(p, s1, IReturn);
    ReachesTrans(p, s, s1, ReturnConf(below + S.Take(st.stack, keep), st.globals, calls), 0, 1);
  }
}
