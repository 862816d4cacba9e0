/** Compiler correctness, whole runs: the machine on the emitted code does what the structured
    semantics does, step for fuel. */
module Correctness {
  import opened Syntax
  import opened Bytecode
  import opened Machine
  import opened TypeChecker
  import opened Elaborate
  import opened Layout
  import opened DropKeepSpec
  import opened Simulation
  import opened SimulateOps
  import S = Semantics

  // ----- When the emitted counts are usable ----------------------------------------------------

  predicate InOrderJump(j: Jump) {
    InOrder(if j.drop < 0 then 0 else j.drop, j.keep)
  }

  predicate InOrderInstr(i: Instr) {
    i.IDropKeep? ==> 0 <= i.drop && 0 <= i.keep && InOrder(i.drop, i.keep)
  }

  predicate InOrderList(c: CodeList) {
    match c
    case CNil => true
    case CCons(h, t) => InOrderCode(h) && InOrderList(t)
  }

  /** Every drop/keep pair the compiler computed is one that `DropKeep` gets right. */
  predicate InOrderCode(c: Code) {
    match c
    case Plain(instrs) => forall k :: 0 <= k < |instrs| ==> InOrderInstr(instrs[k])
    case BlockCode(body) => InOrderList(body)
    case LoopCode(body) => InOrderList(body)
    case IfCode(thn) => InOrderList(thn)
    case IfElseCode(thn, els) => InOrderList(thn) && InOrderList(els)
    case BrCode(j) => InOrderJump(j)
    case BrIfCode(j) => InOrderJump(j)
    case TableCode(jumps) => forall k :: 0 <= k < |jumps| ==> InOrderJump(jumps[k])
    case CallCode(_) => true
  }

  /** No `if` without `else` takes parameters: the validator lets one through, but its false path
      would leave them on the stack. */
  predicate BalancedIfs(es: ExprList) {
    match es
    case Nil => true
    case Cons(e, rest) => BalancedIf(e) && BalancedIfs(rest)
  }

  predicate BalancedIf(e: Expr) {
    match e
    case Block(_, body) => BalancedIfs(body)
    case Loop(_, body) => BalancedIfs(body)
    case If(sig, thn, hasElse, els) =>
      BalancedIfs(thn) && (if hasElse then BalancedIfs(els) else sig.params == [])
    case _ => true
  }

  // ----- Outcomes and machine states -----------------------------------------------------------

  /** Everything about the place where an instruction list runs. */
  datatype Site = Site(ctx: Ctx, env: Env, below: seq<Word>, calls: seq<nat>)

  predicate LabelsMatch(labels: seq<nat>, tc: Checker) {
    |labels| == |tc.labels| && forall i :: 0 <= i < |labels| ==> labels[i] == |tc.labels[i].BrTypes()|
  }

  predicate SiteOk(p: Prog, a: Site, tc: Checker) {
    && Small(p)
    && |p.m.globals| == |a.ctx.globals|
    && |p.m.funcs| == |a.ctx.funcs| == |p.offsets|
    && a.env.funcs == p.offsets
    && |a.env.labels| == |tc.labels|
    && forall i :: 0 <= i < |a.env.labels| ==> a.env.labels[i] < TWO_32
  }

  function LabelTarget(a: Site, d: nat): nat
    requires d < |a.env.labels|
  {
    a.env.labels[|a.env.labels| - 1 - d]
  }

  ghost predicate Landed(p: Prog, a: Site, tc: Checker, outer: seq<Word>, s: Config,
                         d: nat, vals: seq<Word>, ls: seq<Word>, gs: seq<Word>)
  {
    && d < |tc.labels| == |a.env.labels|
    && |vals| == BrKeep(tc, d)
    && |ls| == |a.ctx.locals|
    && |gs| == |a.ctx.globals|
    && tc.LabelAt(d).limit <= |outer|
    && |a.below| + |ls| + (tc.LabelAt(d).limit + |vals|) <= p.lim.values
    && Reaches(p, s, Conf(LabelTarget(a, d), a.below, outer[..tc.LabelAt(d).limit], S.State(ls, vals, gs), a.calls), 1)
  }

  /** The machine started in `s` does what the outcome says: falls through to `next` with the
      validator in state `after`, arrives at a label's offset, returns, traps, or keeps running. */
  ghost predicate Matches(p: Prog, a: Site, tc: Checker, after: Checker, next: nat, outer: seq<Word>,
                          s: Config, o: S.Outcome, fuel: nat)
  {
    match o
    case Normal(st) =>
      Sized(p, a.ctx, after, a.below, outer, st) && Reaches(p, s, Conf(next, a.below, outer, st, a.calls), 0)
    case Branch(d, vals, ls, gs) => Landed(p, a, tc, outer, s, d, vals, ls, gs)
    case Returned(vals, gs) =>
      && tc.labels != [] && |vals| == |tc.labels[0].results| && |gs| == |a.ctx.globals|
      && |a.below| + |vals| <= p.lim.values
      && Reaches(p, s, ReturnConf(a.below + vals, gs, a.calls), 0)
    case Trapped(kind) => Traps(p, s, kind)
    case Stuck => false
    case Timeout => Lasts(p, s, fuel)
  }

  ghost predicate Simulated(p: Prog, a: Site, tc: Checker, after: Checker, next: nat, outer: seq<Word>,
                            s: Config, o: S.Outcome, fuel: nat)
  {
    Exhausts(p, s) || Matches(p, a, tc, after, next, outer, s, o, fuel)
  }

  /** Steps taken before are harmless. */
  lemma SimulatedLater(p: Prog, a: Site, tc: Checker, after: Checker, next: nat, outer: seq<Word>,
                       s: Config, t: Config, k: nat, o: S.Outcome, fuel: nat)
    requires Reaches(p, s, t, k) && Simulated(p, a, tc, after, next, outer, t, o, fuel)
    ensures Simulated(p, a, tc, after, next, outer, s, o, fuel)
  {
    hide Reaches, Lasts, Traps, Exhausts, Sized, Conf, ReturnConf;
    if Exhausts(p, t) {
      ExhaustsLater(p, s, t, k);
    } else {
      match o
      case Normal(st) =>
        ReachesTrans(p, s, t, Conf(next, a.below, outer, st, a.calls), k, 0);
        ReachesLess(p, s, Conf(next, a.below, outer, st, a.calls), k, 0);
      case Branch(d, vals, ls, gs) =>
        var u := Conf(LabelTarget(a, d), a.below, outer[..tc.LabelAt(d).limit], S.State(ls, vals, gs), a.calls);
        ReachesTrans(p, s, t, u, k, 1);
        ReachesLess(p, s, u, k + 1, 1);
      case Returned(vals, gs) =>
        ReachesTrans(p, s, t, ReturnConf(a.below + vals, gs, a.calls), k, 0);
        ReachesLess(p, s, ReturnConf(a.below + vals, gs, a.calls), k, 0);
      case Trapped(kind) => TrapsLater(p, s, t, k, kind);
      case Stuck =>
      case Timeout => LastsMore(p, s, t, k, fuel);
    }
  }

  lemma LastsMore(p: Prog, s: Config, t: Config, k: nat, fuel: nat)
    requires Reaches(p, s, t, k) && Lasts(p, t, fuel)
    ensures Lasts(p, s, fuel)
  {
    LastsLater(p, s, t, k, fuel);
  }

  /** Only the labels of the validator's state matter to where control goes. */
  lemma SimulatedLabels(p: Prog, a: Site, tc: Checker, tc': Checker, after: Checker, next: nat, outer: seq<Word>,
                        s: Config, o: S.Outcome, fuel: nat)
    requires Simulated(p, a, tc, after, next, outer, s, o, fuel) && tc.labels == tc'.labels
    ensures Simulated(p, a, tc', after, next, outer, s, o, fuel)
  {
    hide Reaches, Lasts, Traps, Exhausts, Sized, Conf;
  }

  lemma ReachableLabels(tc: Checker, tc': Checker)
    requires TypeChecker.Frame(tc, tc') && !tc.Top().unreachable && !tc'.Top().unreachable
    ensures tc'.labels == tc.labels
  {
    assert tc'.labels == tc'.labels[..|tc.labels| - 1] + [tc'.Top()];
    assert tc.labels == tc.labels[..|tc.labels| - 1] + [tc.Top()];
  }

  // ----- Leaving a label -----------------------------------------------------------------------

  function InsideSite(a: Site, target: nat): Site {
    a.(env := Inside(a.env, target))
  }

  /** `tc1` just inside a label, `tc2` at the end of its body, `tc3` just outside it. */
  predicate Exits(tc: Checker, tc1: Checker, tc2: Checker, tc3: Checker, kind: Kind, sig: Sig) {
    && Entered(tc, tc1, kind, sig)
    && TypeChecker.Frame(tc1, tc2)
    && (!tc2.Top().unreachable ==> |tc2.types| == tc1.Top().limit + |sig.results|)
    && Wf(tc3)
    && tc3.labels == tc.labels
    && |tc3.types| == tc1.Top().limit + |sig.results|
  }

  lemma EndExits(tc: Checker, tc1: Checker, tc2: Checker, tc3: Checker, kind: Kind, sig: Sig)
    requires Entered(tc, tc1, kind, sig) && TypeChecker.Frame(tc1, tc2) && OnEnd(tc2) == Some(tc3)
    ensures Exits(tc, tc1, tc2, tc3, kind, sig)
  {
    hide PopSignature, Nested;
    OnEndLeft(tc2);
    FrameBody(tc, tc1, tc2, tc3, kind, sig);
    if !tc2.Top().unreachable {
      EndHeight(tc2);
    }
  }

  /** The true branch of an `if` with `else`: its end is `else`, its exit the end of the whole `if`. */
  lemma ElseExits(tc: Checker, tc1: Checker, tc2: Checker, tc3: Checker, tc4: Checker, tc5: Checker, sig: Sig)
    requires Entered(tc, tc1, IfLabel, sig) && TypeChecker.Frame(tc1, tc2) && OnElse(tc2) == Some(tc3)
    requires Exits(tc, tc3, tc4, tc5, ElseLabel, sig)
    ensures Exits(tc, tc1, tc2, tc5, IfLabel, sig)
  {
    hide Nested;
    if !tc2.Top().unreachable {
      PopHeight(tc2, tc2.Top().results);
    }
  }

  /** A block's outcome from its body's outcome. */
  lemma ExitSimulated(p: Prog, a: Site, tc: Checker, tc1: Checker, tc2: Checker, tc3: Checker, kind: Kind, sig: Sig,
                      target: nat, outer: seq<Word>, base: seq<Word>, s: Config, o: S.Outcome, fuel: nat)
    requires Wf(tc) && |outer| == tc.Top().limit && !tc.Top().unreachable && tc.labels[0].limit == 0
    requires |a.env.labels| == |tc.labels|
    requires Exits(tc, tc1, tc2, tc3, kind, sig) && |outer + base| == tc1.Top().limit
    requires o.Branch? && o.depth == 0 ==> kind != LoopLabel
    requires Matches(p, InsideSite(a, target), tc1, tc2, target, outer + base, s, o, fuel)
    ensures Matches(p, a, tc, tc3, target, outer, s, S.ExitLabel(o, base), fuel)
  {
    hide Reaches, Lasts, Traps, Nested;
    match o
    case Normal(st) => SlotsRegroup(a.below, st.locals, outer, base, st.stack);
    case Branch(d, vals, ls, gs) =>
      if d == 0 {
        SlotsRegroup(a.below, ls, outer, base, vals);
        assert (outer + base)[..tc1.Top().limit] == outer + base;
        ReachesLess(p, s, Conf(target, a.below, outer + base, S.State(ls, vals, gs), a.calls), 1, 0);
      } else {
        assert tc1.LabelAt(d) == tc.LabelAt(d - 1);
        LimitBelow(tc.labels, |tc.labels| - d);
        assert (outer + base)[..tc1.LabelAt(d).limit] == outer[..tc1.LabelAt(d).limit];
      }
    case _ =>
  }

  lemma SlotsRegroup(below: seq<Word>, locals: seq<Word>, outer: seq<Word>, base: seq<Word>, stack: seq<Word>)
    ensures Slots(below, locals, outer + base, stack) == Slots(below, locals, outer, base + stack)
  {
    assert (outer + base) + stack == outer + (base + stack);
  }

  /** Reachable code ends with exactly its label's results. */
  lemma EndHeight(tc: Checker)
    requires Wf(tc) && !tc.Top().unreachable && LeaveLabel(tc).Some?
    ensures |tc.types| == tc.Top().limit + |tc.Top().results|
  {
    hide CheckSignature;
  }

  // ----- The cases -----------------------------------------------------------------------------

  predicate Runnable(p: Prog, a: Site, tc: Checker, outer: seq<Word>, st: S.State, labels: seq<nat>) {
    && SiteOk(p, a, tc)
    && Sized(p, a.ctx, tc, a.below, outer, st)
    && LabelsMatch(labels, tc)
    && tc.labels[0].kind == FuncLabel
  }

  lemma SimSimple(p: Prog, a: Site, tc: Checker, op: Op, outer: seq<Word>, st: S.State, labels: seq<nat>, pos: nat,
                  fuel: nat)
    requires Runnable(p, a, tc, outer, st, labels) && ElabSimple(a.ctx, tc, op).Some?
    requires CodeAt(p.code, pos, Gen(a.env, ElabSimple(a.ctx, tc, op).value.code, pos))
    ensures var r := ElabSimple(a.ctx, tc, op).value;
            Simulated(p, a, tc, r.tc, pos + Size(r.code), outer, Conf(pos, a.below, outer, st, a.calls),
                      S.ExecOp(op, st), fuel)
  {
    hide EncodeAll, CodeAt, OnOp, Sized, OpInstrs, S.ExecOp, Reaches, Traps, Exhausts;
    SizedGlobals(p, a.ctx, tc, a.below, outer, st);
    SimOp(p, a.ctx, tc, op, a.below, outer, st, a.calls, pos);
  }

  lemma SizedGlobals(p: Prog, ctx: Ctx, tc: Checker, below: seq<Word>, outer: seq<Word>, st: S.State)
    requires Sized(p, ctx, tc, below, outer, st)
    ensures |st.globals| == |ctx.globals|
  {
  }

  lemma SimBranch(p: Prog, a: Site, tc: Checker, after: Checker, next: nat, d: nat, outer: seq<Word>, st: S.State,
                  labels: seq<nat>, pos: nat, fuel: nat)
    requires Runnable(p, a, tc, outer, st, labels)
    requires d < |tc.labels| && BrKeep(tc, d) <= |st.stack|
    requires InOrderJump(JumpTo(tc, d)) && CodeAt(p.code, pos, JumpBytes(a.env, JumpTo(tc, d)))
    ensures Matches(p, a, tc, after, next, outer, Conf(pos, a.below, outer, st, a.calls), S.BranchTo(d, labels, st),
                    fuel)
  {
    hide CodeAt, Reaches, Conf, JumpBytes;
    SimJump(p, a.ctx, tc, d, a.env, a.below, outer, st, a.calls, pos);
  }

  /** The label's values are on the operand stack. */
  lemma BranchHeight(tc: Checker, d: nat)
    requires Wf(tc) && !tc.Top().unreachable && d < |tc.labels| && CheckSignature(tc, tc.LabelAt(d).BrTypes())
    ensures tc.Top().limit + BrKeep(tc, d) <= |tc.types|
  {
    if BrKeep(tc, d) > 0 {
      assert PeekIs(tc, BrKeep(tc, d) - 1, tc.LabelAt(d).BrTypes()[0]);
    }
  }

  lemma SimBr(p: Prog, a: Site, tc: Checker, d: nat, outer: seq<Word>, st: S.State, labels: seq<nat>, pos: nat,
              fuel: nat)
    requires Runnable(p, a, tc, outer, st, labels) && ElabBr(tc, d).Some? && InOrderCode(ElabBr(tc, d).value.code)
    requires CodeAt(p.code, pos, Gen(a.env, ElabBr(tc, d).value.code, pos))
    ensures var r := ElabBr(tc, d).value;
            Simulated(p, a, tc, r.tc, pos + Size(r.code), outer, Conf(pos, a.below, outer, st, a.calls),
                      S.BranchTo(d, labels, st), fuel)
  {
    hide CodeAt, JumpBytes, CheckSignature, SetUnreachable, Matches, Exhausts, LabelsMatch, SiteOk;
    BranchHeight(tc, d);
    var r := ElabBr(tc, d).value;
    SimBranch(p, a, tc, r.tc, pos + Size(r.code), d, outer, st, labels, pos, fuel);
  }

  /** The inverted conditional jump in front of a guarded sequence. */
  lemma SimGuard(p: Prog, a: Site, tc: Checker, outer: seq<Word>, st: S.State, pos: nat, to: nat)
    requires Small(p) && Sized(p, a.ctx, tc, a.below, outer, st) && PopSignature(tc, [I32]).Some?
    requires CodeAt(p.code, pos, Encode(IBrUnless(to))) && to < TWO_32
    ensures |st.stack| >= 1
    ensures var st' := st.(stack := S.Under(st.stack, 1));
            var pc := if S.Top(st.stack) % TWO_32 != 0 then pos + 5 else to;
            && Sized(p, a.ctx, PopSignature(tc, [I32]).value, a.below, outer, st')
            && Reaches(p, Conf(pos, a.below, outer, st, a.calls), Conf(pc, a.below, outer, st', a.calls), 1)
  {
    hide CodeAt, Encode, Reaches, PopSignature, Slots;
    PopHeight(tc, [I32]);
    PopFrame(tc, [I32]);
    FramePop(a.below, st.locals, outer, st.stack, 1);
    StepInstr(p, Conf(pos, a.below, outer, st, a.calls), IBrUnless(to));
  }

  lemma BrIfAfter(tc: Checker, d: nat)
    requires Wf(tc) && !tc.Top().unreachable && OnBrIf(tc, d).Some?
    ensures var tc1 := PopSignature(tc, [I32]).value;
            var after := OnBrIf(tc, d).value;
            && PopSignature(tc, [I32]).Some?
            && tc1.labels == tc.labels == after.labels
            && d < |tc.labels|
            && |after.types| == |tc1.types| == |tc.types| - 1
            && tc.Top().limit + BrKeep(tc, d) <= |tc1.types|
            && Wf(after)
  {
    PopHeight(tc, [I32]);
    PopFrame(tc, [I32]);
    var tc1 := PopSignature(tc, [I32]).value;
    PopPushHeight(tc1, tc1.LabelAt(d).BrTypes(), tc1.LabelAt(d).BrTypes());
    PopPushFrame(tc1, tc1.LabelAt(d).BrTypes(), tc1.LabelAt(d).BrTypes());
  }

  lemma SimBrIf(p: Prog, a: Site, tc: Checker, d: nat, outer: seq<Word>, st: S.State, labels: seq<nat>, pos: nat,
                fuel: nat)
    requires Runnable(p, a, tc, outer, st, labels) && ElabBrIf(tc, d).Some? && InOrderCode(ElabBrIf(tc, d).value.code)
    requires CodeAt(p.code, pos, Gen(a.env, ElabBrIf(tc, d).value.code, pos))
    ensures |st.stack| >= 1
    ensures var r := ElabBrIf(tc, d).value;
            var st' := st.(stack := S.Under(st.stack, 1));
            Simulated(p, a, tc, r.tc, pos + Size(r.code), outer, Conf(pos, a.below, outer, st, a.calls),
                      if S.Top(st.stack) % TWO_32 != 0 then S.BranchTo(d, labels, st') else S.Normal(st'), fuel)
  {
    hide CodeAt, Encode, OnBrIf, PopSignature, S.BranchTo, Exhausts, Reaches, JumpBytes, Slots, Landed;
    var r := ElabBrIf(tc, d).value;
    BrIfAfter(tc, d);
    JumpBytesSize(a.env, a.env, r.code.jump);
    var jump := JumpBytes(a.env, r.code.jump);
    var to := pos + 5 + |jump|;
    CodeAtSplit(p.code, pos, Encode(IBrUnless(to)), jump);
    CodeAtEnd(p.code, pos + 5, jump);
    SimGuard(p, a, tc, outer, st, pos, to);
    var st' := st.(stack := S.Under(st.stack, 1));
    var s := Conf(pos, a.below, outer, st, a.calls);
    if S.Top(st.stack) % TWO_32 != 0 {
      SimTaken(p, a, tc, r.tc, d, outer, st', labels, pos + 5, to, s, fuel);
    } else {
      ReachesLess(p, s, Conf(to, a.below, outer, st', a.calls), 1, 0);
    }
  }

  /** From behind the guard: the branch, as seen from in front of it. */
  lemma SimTaken(p: Prog, a: Site, tc: Checker, after: Checker, d: nat, outer: seq<Word>, st: S.State, labels: seq<nat>,
                 pos: nat, to: nat, s: Config, fuel: nat)
    requires Runnable(p, a, after, outer, st, labels) && after.labels == tc.labels
    requires d < |after.labels| && BrKeep(after, d) <= |st.stack|
    requires InOrderJump(JumpTo(after, d)) && CodeAt(p.code, pos, JumpBytes(a.env, JumpTo(after, d)))
    requires Reaches(p, s, Conf(pos, a.below, outer, st, a.calls), 1)
    ensures Simulated(p, a, tc, after, to, outer, s, S.BranchTo(d, labels, st), fuel)
  {
    hide CodeAt, S.BranchTo, Exhausts, Reaches, JumpBytes, Landed, Runnable, Conf, InOrderJump, Matches;
    SimBranch(p, a, after, after, to, d, outer, st, labels, pos, fuel);
    SimulatedLater(p, a, after, after, to, outer, s, Conf(pos, a.below, outer, st, a.calls), 1,
                   S.BranchTo(d, labels, st), fuel);
    SimulatedLabels(p, a, after, tc, after, to, outer, s, S.BranchTo(d, labels, st), fuel);
  }

  lemma CodeAtEnd(code: seq<Byte>, pos: nat, bytes: seq<Byte>)
    requires CodeAt(code, pos, bytes)
    ensures pos + |bytes| <= |code|
  {
  }

  lemma {:induction false} EntryAt(code: seq<Byte>, env: Env, jumps: seq<Jump>, pos: nat, k: nat)
    requires CodeAt(code, pos, EntriesBytes(env, jumps)) && k < |jumps|
    ensures CodeAt(code, pos + 12 * k, EntryBytes(env, jumps[k]))
    decreases |jumps|
  {
    hide EntryBytes, CodeAt;
    CodeAtSplit(code, pos, EntryBytes(env, jumps[0]), EntriesBytes(env, jumps[1..]));
    if k > 0 {
      EntryAt(code, env, jumps[1..], pos + 12, k - 1);
    }
  }

  lemma ReadEntry(code: seq<Byte>, env: Env, j: Jump, at: nat)
    requires CodeAt(code, at, EntryBytes(env, j)) && 0 <= j.drop < TWO_32 && j.keep < TWO_32
    requires 0 <= |env.labels| - 1 - j.depth && env.labels[|env.labels| - 1 - j.depth] < TWO_32
    ensures at + 12 <= |code|
    ensures ReadU32(code, at) == env.labels[|env.labels| - 1 - j.depth]
    ensures ReadU32(code, at + 4) == j.drop && ReadU32(code, at + 8) == j.keep
  {
    hide U32, ReadU32;
    var t := env.labels[|env.labels| - 1 - j.depth];
    CodeAtSplit(code, at, U32(t), U32(j.drop) + U32(j.keep));
    CodeAtSplit(code, at + 4, U32(j.drop), U32(j.keep));
    ReadBack(code, at, t);
    ReadBack(code, at + 4, j.drop);
    ReadBack(code, at + 8, j.keep);
  }

  lemma ExecuteTable(p: Prog, s: Config, f: seq<Word>, key: Word, count: nat, table: nat, k: nat, drop: nat, keep: nat)
    requires s.stack == f + [key] && k == (if key % TWO_32 >= count then count else key % TWO_32)
    requires table + 12 * k + 12 <= |p.code| && drop + keep <= |f|
    requires ReadU32(p.code, table + 12 * k + 4) == drop && ReadU32(p.code, table + 12 * k + 8) == keep
    ensures Execute(p.code, p.lim, s, IBrTable(count, table))
         == s.(pc := ReadU32(p.code, table + 12 * k), stack := DropKeep(f, drop, keep))
  {
    hide DropKeep, ReadU32;
    assert s.stack[..|s.stack| - 1] == f;
  }

  /** The machine's table lookup, down to the chosen entry. */
  lemma SimTableStep(p: Prog, a: Site, tc1: Checker, d: nat, outer: seq<Word>, st: S.State, key: Word,
                     pos: nat, count: nat, table: nat, k: nat)
    requires Small(p) && Sized(p, a.ctx, tc1, a.below, outer, st)
    requires |a.below| + |st.locals| + |tc1.types| < p.lim.values
    requires d < |tc1.labels| == |a.env.labels| && LabelTarget(a, d) < TWO_32
    requires BrKeep(tc1, d) <= |st.stack| && InOrderJump(JumpTo(tc1, d))
    requires CodeAt(p.code, pos, Encode(IBrTable(count, table))) && count < TWO_32 && table < TWO_32
    requires k == (if key % TWO_32 >= count then count else key % TWO_32)
    requires CodeAt(p.code, table + 12 * k, EntryBytes(a.env, JumpTo(tc1, d)))
    ensures var keep, limit := BrKeep(tc1, d), tc1.LabelAt(d).limit;
            && limit <= |outer|
            && |a.below| + |st.locals| + (limit + keep) <= p.lim.values
            && Reaches(p, Conf(pos, a.below, outer, st.(stack := st.stack + [key]), a.calls),
                       Conf(LabelTarget(a, d), a.below, outer[..limit], st.(stack := S.Take(st.stack, keep)), a.calls),
                         1)
  {
    hide Encode, CodeAt, EntryBytes, Slots, DropKeep, Intended, ReadU32, Execute;
    var keep, limit := BrKeep(tc1, d), tc1.LabelAt(d).limit;
    LimitBelow(tc1.labels, |tc1.labels| - 1 - d);
    var j := JumpTo(tc1, d);
    ReadEntry(p.code, a.env, j, table + 12 * k);
    var s := Conf(pos, a.below, outer, st.(stack := st.stack + [key]), a.calls);
    var f := Slots(a.below, st.locals, outer, st.stack);
    FramePush(a.below, st.locals, outer, st.stack, key);
    assert (f + [key])[..|f + [key]| - 1] == f;
    SlotsSize(a.below, outer, st);
    FrameDrop(a.below, st.locals, outer, st.stack, limit, keep);
    InOrderIntended(f, j.drop, keep);
    StepInstr(p, s, IBrTable(count, table));
    ExecuteTable(p, s.(pc := pos + 9), f, key, count, table, k, j.drop, keep);
  }

  /** `br_table` with its key already split off the operand stack. */
  lemma TableAfter(ctx: Ctx, tc: Checker, targets: seq<nat>, default: nat, k: nat)
    requires Wf(tc) && !tc.Top().unreachable && ElabBrTable(tc, targets, default).Some? && k <= |targets|
    ensures var tc1 := PopSignature(tc, [I32]).value;
            var all := targets + [default];
            && PopSignature(tc, [I32]).Some? && CheckTargets(tc1, all)
            && Wf(tc1) && tc1.labels == tc.labels && |tc1.types| == |tc.types| - 1 && tc.Top().limit <= |tc1.types|
            && all[k] < |tc.labels|
            && ElabBrTable(tc, targets, default).value.code == TableCode(JumpsTo(tc1, all))
            && tc.Top().limit + BrKeep(tc1, all[k]) <= |tc1.types|
  {
    hide CheckSignature;
    PopHeight(tc, [I32]);
    PopFrame(tc, [I32]);
    var tc1, all := PopSignature(tc, [I32]).value, targets + [default];
    assert TargetOk(tc1, all, k);
    BranchHeight(tc1, all[k]);
  }

  lemma SimBrTable(p: Prog, a: Site, tc: Checker, targets: seq<nat>, default: nat, outer: seq<Word>, st: S.State,
                   labels: seq<nat>, pos: nat, fuel: nat)
    requires Runnable(p, a, tc, outer, st, labels) && ElabBrTable(tc, targets, default).Some?
    requires InOrderCode(ElabBrTable(tc, targets, default).value.code)
    requires CodeAt(p.code, pos, Gen(a.env, ElabBrTable(tc, targets, default).value.code, pos))
    ensures |st.stack| >= 1
    ensures var r := ElabBrTable(tc, targets, default).value;
            var key := S.Top(st.stack) % TWO_32;
            var d := if key < |targets| then targets[key] else default;
            Simulated(p, a, tc, r.tc, pos + Size(r.code), outer, Conf(pos, a.below, outer, st, a.calls),
                      S.BranchTo(d, labels, st.(stack := S.Under(st.stack, 1))), fuel)
  {
    hide CodeAt, Encode, PopSignature, EntriesBytes, Reaches, CheckTargets, Slots, Conf, SetUnreachable;
    hide EntryBytes, S.BranchTo, LabelsMatch, Landed, Gen, InOrderJump, JumpTo, Matches, Exhausts;
    TableAfter(a.ctx, tc, targets, default, |targets|);
    var key := S.Top(st.stack);
    var k := if key % TWO_32 >= |targets| then |targets| else key % TWO_32;
    TableAfter(a.ctx, tc, targets, default, k);
    var tc1, all := PopSignature(tc, [I32]).value, targets + [default];
    var jumps := JumpsTo(tc1, all);
    TableParts(p.code, a.env, jumps, pos, k);
    var st' := st.(stack := S.Under(st.stack, 1));
    assert st'.stack + [key] == st.stack;
    assert jumps[k] == JumpTo(tc1, all[k]);
    SimTableStep(p, a, tc1, all[k], outer, st', key, pos, |targets|, pos + 14, k);
    var r := ElabBrTable(tc, targets, default).value;
    BranchLanded(p, a, tc, tc1, r.tc, pos + Size(r.code), all[k], outer, st', labels,
                 Conf(pos, a.below, outer, st, a.calls), fuel);
  }

  lemma BranchLanded(p: Prog, a: Site, tc: Checker, tc1: Checker, after: Checker, next: nat, d: nat, outer: seq<Word>,
                     st: S.State, labels: seq<nat>, s: Config, fuel: nat)
    requires LabelsMatch(labels, tc) && |a.env.labels| == |tc.labels| && tc1.labels == tc.labels
    requires |st.locals| == |a.ctx.locals| && |st.globals| == |a.ctx.globals|
    requires d < |tc.labels| && BrKeep(tc1, d) <= |st.stack|
    requires var keep, limit := BrKeep(tc1, d), tc1.LabelAt(d).limit;
             && limit <= |outer|
             && |a.below| + |st.locals| + (limit + keep) <= p.lim.values
             && Reaches(p, s, Conf(LabelTarget(a, d), a.below, outer[..limit], st.(stack := S.Take(st.stack, keep)),
                                   a.calls), 1)
    ensures Simulated(p, a, tc, after, next, outer, s, S.BranchTo(d, labels, st), fuel)
  {
    hide Reaches, Conf;
  }

  lemma TableParts(code: seq<Byte>, env: Env, jumps: seq<Jump>, pos: nat, k: nat)
    requires k < |jumps| && CodeAt(code, pos, Gen(env, TableCode(jumps), pos))
    ensures CodeAt(code, pos, Encode(IBrTable(|jumps| - 1, pos + 14)))
    ensures CodeAt(code, pos + 14 + 12 * k, EntryBytes(env, jumps[k]))
    ensures pos + 14 + 12 * |jumps| <= |code|
  {
    hide EntriesBytes, Encode, EntryBytes;
    CodeAtSplit(code, pos, TableHeader(|jumps|, pos), EntriesBytes(env, jumps));
    CodeAtSplit(code, pos, Encode(IBrTable(|jumps| - 1, pos + 14)), Encode(IData(12 * |jumps|)));
    EntryAt(code, env, jumps, pos + 14, k);
  }

  lemma SimReturnExpr(p: Prog, a: Site, tc: Checker, outer: seq<Word>, st: S.State, labels: seq<nat>, pos: nat,
                      fuel: nat)
    requires Runnable(p, a, tc, outer, st, labels) && ElabReturn(a.ctx, tc).Some?
    requires InOrderCode(ElabReturn(a.ctx, tc).value.code)
    requires CodeAt(p.code, pos, Gen(a.env, ElabReturn(a.ctx, tc).value.code, pos))
    ensures labels != [] && labels[0] <= |st.stack|
    ensures var r := ElabReturn(a.ctx, tc).value;
            Simulated(p, a, tc, r.tc, pos + Size(r.code), outer, Conf(pos, a.below, outer, st, a.calls),
                      S.Returned(S.Take(st.stack, labels[0]), st.globals), fuel)
  {
    hide CodeAt, EncodeAll, PopSignature, Reaches, Conf, SetUnreachable, ReturnConf, InOrderCode, Exhausts,
         DropKeepInstrs;
    hide CtxOk, InOrder;
    PopHeight(tc, tc.labels[0].results);
    var keep := |tc.labels[0].results|;
    ReturnInOrder(p, a.ctx, tc);
    SimReturn(p, a.ctx, tc, a.below, outer, st, a.calls, pos);
    ReachesLess(p, Conf(pos, a.below, outer, st, a.calls),
                ReturnConf(a.below + S.Take(st.stack, keep), st.globals, a.calls), 1, 0);
  }

  lemma ReturnInOrder(p: Prog, ctx: Ctx, tc: Checker)
    requires tc.labels != [] && InOrderCode(Plain(ReturnInstrs(ctx, tc)))
    requires 0 <= ReturnDrop(ctx, tc) < TWO_32
    ensures InOrder(ReturnDrop(ctx, tc), BrKeep(tc, |tc.labels| - 1))
  {
    var dk := DropKeepInstrs(ReturnDrop(ctx, tc), BrKeep(tc, |tc.labels| - 1));
    if dk != [] {
      assert ReturnInstrs(ctx, tc)[0] == dk[0];
    }
  }

  lemma SimUnreachable(p: Prog, a: Site, tc: Checker, outer: seq<Word>, st: S.State, pos: nat, fuel: nat)
    requires ElabExpr(a.ctx, tc, Unreachable).Some?
    requires CodeAt(p.code, pos, Gen(a.env, ElabExpr(a.ctx, tc, Unreachable).value.code, pos))
    ensures var r := ElabExpr(a.ctx, tc, Unreachable).value;
            Simulated(p, a, tc, r.tc, pos + Size(r.code), outer, Conf(pos, a.below, outer, st, a.calls),
                      S.Trapped(S.UnreachableTrap), fuel)
  {
    hide CodeAt, Encode, EncodeAll;
    EncodeOne(IUnreachable);
    StepInstr(p, Conf(pos, a.below, outer, st, a.calls), IUnreachable);
  }

  // ----- Calls and whole runs --------------------------------------------------------------------

  /** The function's linked code is in the stream. */
  ghost predicate FuncPlaced(p: Prog, c: FuncCode, f: nat)
    requires f < |p.m.funcs| == |p.offsets|
  {
    && ElabFunc(p.m, f) == Some(c)
    && CodeAt(p.code, p.offsets[f], GenFunc(p.offsets, c, p.offsets[f]))
    && LocalCount(p.m.funcs[f].decls) < TWO_32
    && BalancedIfs(p.m.funcs[f].body)
  }

  /** And its counts are usable. */
  ghost predicate FuncLoaded(p: Prog, c: FuncCode, f: nat)
    requires f < |p.m.funcs| == |p.offsets|
  {
    FuncPlaced(p, c, f) && InOrderList(c.body) && InOrderCode(Plain(c.exit))
  }

  ghost predicate Loaded(p: Prog, cs: seq<FuncCode>) {
    && Small(p)
    && |cs| == |p.offsets| == |p.m.funcs|
    && forall f :: 0 <= f < |cs| ==> FuncLoaded(p, cs[f], f)
  }

  predicate CtxOk(p: Prog, ctx: Ctx) {
    && ctx.globals == p.m.globals
    && |ctx.funcs| == |p.m.funcs|
    && forall f :: 0 <= f < |ctx.funcs| ==> ctx.funcs[f] == p.m.funcs[f].sig
  }

  /** A call's outcome: results in place of the arguments, and control back at the caller. */
  ghost predicate CallMatches(p: Prog, f: nat, below: seq<Word>, calls: seq<nat>, t: Config, o: S.Outcome, fuel: nat)
    requires f < |p.m.funcs|
  {
    match o
    case Returned(vals, gs) =>
      && |vals| == |p.m.funcs[f].sig.results| && |gs| == |p.m.globals|
      && |below| + |vals| <= p.lim.values
      && Reaches(p, t, ReturnConf(below + vals, gs, calls), 0)
    case Trapped(kind) => Traps(p, t, kind)
    case Timeout => Lasts(p, t, fuel)
    case _ => false
  }

  lemma CallStep(p: Prog, s: Config, target: nat)
    requires s.status == Running && CodeAt(p.code, s.pc, Encode(ICall(target))) && target < TWO_32
    ensures Exhausts(p, s) || Reaches(p, s, s.(pc := target, calls := s.calls + [s.pc + 5]), 1)
  {
    hide CodeAt, Encode, Run;
    StepInstr(p, s, ICall(target));
    if |s.calls| >= p.lim.calls {
      ExhaustedNow(p, s, Execute(p.code, p.lim, s.(pc := s.pc + 5), ICall(target)));
    }
  }

  lemma CallReturned(p: Prog, a: Site, tc: Checker, after: Checker, f: nat, outer: seq<Word>, st: S.State,
                     pos: nat, s: Config, t: Config, o: S.Outcome, fuel: nat)
    requires f < |p.m.funcs| && CtxOk(p, a.ctx) && Sized(p, a.ctx, tc, a.below, outer, st)
    requires OnCall(a.ctx, tc, f) == Some(after)
    requires |p.m.funcs[f].sig.params| <= |st.stack| && 0 < fuel
    requires Reaches(p, s, t, 1)
    requires CallMatches(p, f, Slots(a.below, st.locals, outer, S.Under(st.stack, |p.m.funcs[f].sig.params|)),
                         a.calls + [pos + 5], t, o, fuel - 1)
    ensures var np := |p.m.funcs[f].sig.params|;
            var o' := if o.Returned? then S.Normal(S.State(st.locals, S.Under(st.stack, np) + o.vals, o.globals))
              else o;
            Matches(p, a, tc, after, pos + 5, outer, s, o', fuel)
  {
    hide PopPush, Slots, Run;
    var sig := p.m.funcs[f].sig;
    var np := |sig.params|;
    PopPushHeight(tc, sig.params, sig.results);
    PopPushFrame(tc, sig.params, sig.results);
    match o
    case Returned(vals, gs) =>
      FrameCall(a.below, st.locals, outer, st.stack, np, vals);
      SlotsSize(a.below, outer, st.(stack := S.Under(st.stack, np)));
      var u := Conf(pos + 5, a.below, outer, S.State(st.locals, S.Under(st.stack, np) + vals, gs), a.calls);
      assert (a.calls + [pos + 5])[..|a.calls|] == a.calls;
      ReachesTrans(p, s, t, u, 1, 0);
      ReachesLess(p, s, u, 1, 0);
    case Trapped(kind) => TrapsLater(p, s, t, 1, kind);
    case Timeout => LastsLater(p, s, t, 1, fuel - 1);
    case _ =>
  }

  lemma {:induction false} SimCall(p: Prog, cs: seq<FuncCode>, a: Site, tc: Checker, f: nat, outer: seq<Word>,
                                   st: S.State, labels: seq<nat>, pos: nat, fuel: nat)
    requires Loaded(p, cs) && CtxOk(p, a.ctx) && Runnable(p, a, tc, outer, st, labels)
    requires ElabCall(a.ctx, tc, f).Some? && CodeAt(p.code, pos, Gen(a.env, CallCode(f), pos))
    ensures Simulated(p, a, tc, ElabCall(a.ctx, tc, f).value.tc, pos + 5, outer, Conf(pos, a.below, outer, st, a.calls),
                      S.ExecExpr(p.m, Call(f), labels, st, fuel), fuel)
    decreases fuel, 0, Call(f), -1
  {
    hide CodeAt, Encode, PopPush, Slots, LabelsMatch, Reaches, Exhausts, Lasts, CallMatches, GenFunc, Matches;
    var sig := p.m.funcs[f].sig;
    var np := |sig.params|;
    PopPushHeight(tc, sig.params, sig.results);
    var s := Conf(pos, a.below, outer, st, a.calls);
    if fuel == 0 {
      SimNow(p, a, tc, ElabCall(a.ctx, tc, f).value.tc, pos + 5, outer, s);
    } else {
      var below := Slots(a.below, st.locals, outer, S.Under(st.stack, np));
      FrameCall(a.below, st.locals, outer, st.stack, np, []);
      SlotsSize(a.below, outer, st);
      SlotsSize(a.below, outer, st.(stack := S.Under(st.stack, np)));
      FuncStart(p, cs, f);
      CallStep(p, s, p.offsets[f]);
      if !Exhausts(p, s) {
        var args := S.Take(st.stack, np);
        var calls := a.calls + [pos + 5];
        var t := Config(Running, p.offsets[f], below + args, calls, st.globals);
        SimFunc(p, cs, f, below, args, st.globals, calls, fuel - 1);
        if Exhausts(p, t) {
          ExhaustsLater(p, s, t, 1);
        } else {
          CallReturned(p, a, tc, ElabCall(a.ctx, tc, f).value.tc, f, outer, st, pos, s, t,
                       S.CallFunc(p.m, f, args, st.globals, fuel - 1), fuel);
        }
      }
    }
  }

  lemma SimNow(p: Prog, a: Site, tc: Checker, after: Checker, next: nat, outer: seq<Word>, s: Config)
    requires s.status == Running
    ensures Simulated(p, a, tc, after, next, outer, s, S.Timeout, 0)
  {
    ReachesNow(p, s);
  }

  lemma FuncStart(p: Prog, cs: seq<FuncCode>, f: nat)
    requires Loaded(p, cs) && f < |cs|
    ensures p.offsets[f] < TWO_32
  {
    hide GenFunc;
    assert FuncLoaded(p, cs[f], f);
  }

  /** Where the parts of a linked function are. */
  lemma FuncParts(p: Prog, c: FuncCode, f: nat)
    requires Small(p) && f < |p.m.funcs| == |p.offsets| && FuncPlaced(p, c, f)
    ensures var fn, ctx := p.m.funcs[f], CtxOf(p.m, f);
            var r := ElabList(ctx, BeginFunction(fn.sig.results), fn.body);
            var start := p.offsets[f] + |EncodeAll(c.alloca)|;
            var end := start + SizeList(c.body);
            && r.Some? && r.value.code == c.body
            && r.value.tc.labels != [] && EndFunction(r.value.tc).Some? && c.exit == ReturnInstrs(ctx, r.value.tc)
            && c.alloca == AllocaInstrs(fn.decls)
            && CodeAt(p.code, p.offsets[f], EncodeAll(c.alloca))
            && CodeAt(p.code, start, GenList(Env([end], p.offsets), c.body, start))
            && CodeAt(p.code, end, EncodeAll(c.exit))
            && end < TWO_32
  {
    hide EncodeAll, GenList, ElabList, EndFunction, ReturnInstrs, AllocaInstrs, SizeList;
    var start := p.offsets[f] + |EncodeAll(c.alloca)|;
    var env := Env([start + SizeList(c.body)], p.offsets);
    GenListSize(env, c.body, start);
    var b := GenList(env, c.body, start);
    CodeAtSplit(p.code, p.offsets[f], EncodeAll(c.alloca), b + EncodeAll(c.exit));
    CodeAtSplit(p.code, start, b, EncodeAll(c.exit));
  }

  /** The callee's frame: arguments and zeroed locals. */
  lemma SimAlloca(p: Prog, decls: seq<LocalDecl>, pos: nat, below: seq<Word>, args: seq<Word>, globals: seq<Word>,
                  calls: seq<nat>)
    requires |below| + |args| <= p.lim.values && LocalCount(decls) < TWO_32
    requires CodeAt(p.code, pos, EncodeAll(AllocaInstrs(decls)))
    ensures var t := Config(Running, pos, below + args, calls, globals);
            var n := LocalCount(decls);
            var u := Conf(pos + |EncodeAll(AllocaInstrs(decls))|, below, [], S.State(args + Zeros(n), [], globals),
                          calls);
            Exhausts(p, t) || (Reaches(p, t, u, 0) && |below| + |args| + n <= p.lim.values)
  {
    hide CodeAt, Encode, Run, LocalCount;
    var t := Config(Running, pos, below + args, calls, globals);
    if decls == [] {
      LocalCountNone();
      assert args + Zeros(0) == args;
      assert Slots(below, args, [], []) == below + args;
      ReachesNow(p, t);
    } else {
      var n := LocalCount(decls);
      EncodeOne(IAlloca(n));
      StepInstr(p, t, IAlloca(n));
      var t' := Execute(p.code, p.lim, t.(pc := pos + 5), IAlloca(n));
      if t'.Exhausted() {
        ExhaustedNow(p, t, t');
      } else {
        assert Slots(below, args + Zeros(n), [], []) == below + args + Zeros(n);
      }
    }
  }

  lemma LocalCountNone()
    ensures LocalCount([]) == 0
  {
  }

  /** The implicit return: the counts are right on every path that gets there, whether the end of
      the body is reachable or only branched to. */
  lemma SimExit(p: Prog, f: nat, tc: Checker, pos: nat, below: seq<Word>, ls: seq<Word>, vals: seq<Word>,
                gs: seq<Word>, calls: seq<nat>)
    requires Small(p) && f < |p.m.funcs| && Wf(tc) && |tc.labels| == 1 && tc.Top().limit == 0
             && tc.Top().kind == FuncLabel
    requires tc.Top().results == p.m.funcs[f].sig.results && EndFunction(tc).Some?
    requires |vals| == |p.m.funcs[f].sig.results| && |ls| == |CtxOf(p.m, f).locals|
    requires |below| + |ls| + |vals| <= p.lim.values
    requires InOrderCode(Plain(ReturnInstrs(CtxOf(p.m, f), tc)))
    requires CodeAt(p.code, pos, EncodeAll(ReturnInstrs(CtxOf(p.m, f), tc)))
    ensures Reaches(p, Conf(pos, below, [], S.State(ls, vals, gs), calls), ReturnConf(below + vals, gs, calls), 0)
  {
    hide CodeAt, EncodeAll, ReturnInstrs, LocalTypes, Reaches, Conf, CheckSignature, InOrderCode, ReturnConf;
    var ctx := CtxOf(p.m, f);
    if !tc.Top().unreachable {
      EndHeight(tc);
    }
    assert ReturnDrop(ctx, tc) == |ls|;
    ReturnInOrder(p, ctx, tc);
    assert S.Take(vals, |vals|) == vals;
    ReturnFrom(p, ctx, tc, below, [], S.State(ls, vals, gs), calls, pos, |ls|, |vals|);
    ReachesLess(p, Conf(pos, below, [], S.State(ls, vals, gs), calls), ReturnConf(below + vals, gs, calls), 1, 0);
  }

  /** A function's outcome from its body's outcome. */
  lemma FuncOutcome(p: Prog, f: nat, tc: Checker, pos: nat, below: seq<Word>, calls: seq<nat>, s: Config, o: S.Outcome,
                    fuel: nat)
    requires Small(p) && f < |p.m.funcs|
    requires var fn := p.m.funcs[f];
             var tc0 := BeginFunction(fn.sig.results);
             && TypeChecker.Frame(tc0, tc) && EndFunction(tc).Some?
             && InOrderCode(Plain(ReturnInstrs(CtxOf(p.m, f), tc)))
             && CodeAt(p.code, pos, EncodeAll(ReturnInstrs(CtxOf(p.m, f), tc)))
             && Matches(p, Site(CtxOf(p.m, f), Env([pos], p.offsets), below, calls), tc0, tc, pos, [], s, o, fuel)
    ensures var n := |p.m.funcs[f].sig.results|;
            var o' := match o {
              case Normal(st) => if |st.stack| == n then S.Returned(st.stack, st.globals) else S.Stuck
              case Branch(d, vals, _, gs) => if d == 0 then S.Returned(vals, gs) else S.Stuck
              case _ => o
            };
            CallMatches(p, f, below, calls, s, o', fuel)
  {
    hide CodeAt, EncodeAll, ReturnInstrs, LocalTypes, Reaches, Conf, CheckSignature, InOrderCode, ReturnConf,
         EndFunction;
    match o
    case Normal(st) =>
      EndFunctionHeight(tc);
      SimExit(p, f, tc, pos, below, st.locals, st.stack, st.globals, calls);
      ReachesTrans(p, s, Conf(pos, below, [], st, calls), ReturnConf(below + st.stack, st.globals, calls), 0, 0);
    case Branch(d, vals, ls, gs) =>
      SimExit(p, f, tc, pos, below, ls, vals, gs, calls);
      ReachesTrans(p, s, Conf(pos, below, [], S.State(ls, vals, gs), calls), ReturnConf(below + vals, gs, calls), 1, 0);
      ReachesLess(p, s, ReturnConf(below + vals, gs, calls), 1, 0);
    case _ =>
  }

  lemma EndFunctionHeight(tc: Checker)
    requires Wf(tc) && !tc.Top().unreachable && EndFunction(tc).Some?
    ensures |tc.types| == tc.Top().limit + |tc.Top().results|
  {
    EndHeight(tc);
  }

  lemma {:induction false} SimFunc(p: Prog, cs: seq<FuncCode>, f: nat, below: seq<Word>, args: seq<Word>,
                                   globals: seq<Word>, calls: seq<nat>, fuel: nat)
    requires Loaded(p, cs) && f < |p.m.funcs|
    requires |args| == |p.m.funcs[f].sig.params| && |globals| == |p.m.globals|
    requires |below| + |args| <= p.lim.values
    ensures var t := Config(Running, p.offsets[f], below + args, calls, globals);
            Exhausts(p, t) || CallMatches(p, f, below, calls, t, S.CallFunc(p.m, f, args, globals, fuel), fuel)
    decreases fuel, 1, Nil, 0
  {
    hide CodeAt, EncodeAll, GenList, ElabList, EndFunction, ReturnInstrs, AllocaInstrs, SizeList, Slots, Matches;
    hide CallMatches, Reaches, Exhausts, InOrderCode, InOrderList, BalancedIfs;
    var fn, ctx, c := p.m.funcs[f], CtxOf(p.m, f), cs[f];
    assert FuncLoaded(p, c, f);
    FuncParts(p, c, f);
    var t := Config(Running, p.offsets[f], below + args, calls, globals);
    SimAlloca(p, fn.decls, p.offsets[f], below, args, globals, calls);
    if !Exhausts(p, t) {
      var start := p.offsets[f] + |EncodeAll(c.alloca)|;
      var end := start + SizeList(c.body);
      var tc0 := BeginFunction(fn.sig.results);
      var st := S.State(args + Zeros(LocalCount(fn.decls)), [], globals);
      var a := Site(ctx, Env([end], p.offsets), below, calls);
      var u := Conf(start, below, [], st, calls);
      assert CtxOk(p, ctx);
      ListFrame(ctx, tc0, fn.body);
      SimList(p, cs, a, tc0, fn.body, [], st, [|fn.sig.results|], start, fuel);
      var tc := ElabList(ctx, tc0, fn.body).value.tc;
      var o := S.Exec(p.m, fn.body, [|fn.sig.results|], st, fuel);
      SimulatedLater(p, a, tc0, tc, end, [], t, u, 0, o, fuel);
      FuncOutcome(p, f, tc, end, below, calls, t, o, fuel);
    }
  }

  /** What the mutual induction shows for a list and for an instruction. */
  ghost predicate ListReady(p: Prog, cs: seq<FuncCode>, a: Site, tc: Checker, es: ExprList, outer: seq<Word>,
                            st: S.State, labels: seq<nat>, pos: nat)
  {
    && Loaded(p, cs) && CtxOk(p, a.ctx) && Runnable(p, a, tc, outer, st, labels)
    && ElabList(a.ctx, tc, es).Some? && BalancedIfs(es)
    && InOrderList(ElabList(a.ctx, tc, es).value.code)
    && CodeAt(p.code, pos, GenList(a.env, ElabList(a.ctx, tc, es).value.code, pos))
  }

  ghost predicate ExprReady(p: Prog, cs: seq<FuncCode>, a: Site, tc: Checker, e: Expr, outer: seq<Word>,
                            st: S.State, labels: seq<nat>, pos: nat)
  {
    && Loaded(p, cs) && CtxOk(p, a.ctx) && Runnable(p, a, tc, outer, st, labels)
    && ElabExpr(a.ctx, tc, e).Some? && BalancedIf(e)
    && InOrderCode(ElabExpr(a.ctx, tc, e).value.code)
    && CodeAt(p.code, pos, Gen(a.env, ElabExpr(a.ctx, tc, e).value.code, pos))
  }

  lemma {:induction false} SimList(p: Prog, cs: seq<FuncCode>, a: Site, tc: Checker, es: ExprList, outer: seq<Word>,
                                   st: S.State, labels: seq<nat>, pos: nat, fuel: nat)
    requires ListReady(p, cs, a, tc, es, outer, st, labels, pos)
    ensures var r := ElabList(a.ctx, tc, es).value;
            Simulated(p, a, tc, r.tc, pos + SizeList(r.code), outer, Conf(pos, a.below, outer, st, a.calls),
                      S.Exec(p.m, es, labels, st, fuel), fuel)
    decreases fuel, 0, es, 0
  {
    hide CodeAt, Gen, ElabExpr, Size, Loaded, CtxOk, SiteOk, LabelsMatch, Exhausts, Reaches, BalancedIf, InOrderCode,
         Slots;
    hide Wf;
    var s := Conf(pos, a.below, outer, st, a.calls);
    match es
    case Nil => ReachesNow(p, s);
    case Cons(e, rest) =>
      var h := ElabExpr(a.ctx, tc, e).value;
      var t := ElabList(a.ctx, h.tc, rest).value;
      GenSize(a.env, h.code, pos);
      CodeAtSplit(p.code, pos, Gen(a.env, h.code, pos), GenList(a.env, t.code, pos + Size(h.code)));
      SimExpr(p, cs, a, tc, e, outer, st, labels, pos, fuel);
      var o := S.ExecExpr(p.m, e, labels, st, fuel);
      if !Exhausts(p, s) && o.Normal? {
        SizedWf(p, a.ctx, tc, a.below, outer, st);
        SizedReachable(p, a.ctx, h.tc, a.below, outer, o.state);
        ExprFrame(a.ctx, tc, e);
        ReachableLabels(tc, h.tc);
        SameSite(p, a, tc, h.tc, labels);
        var u := Conf(pos + Size(h.code), a.below, outer, o.state, a.calls);
        SimList(p, cs, a, h.tc, rest, outer, o.state, labels, pos + Size(h.code), fuel);
        SimulatedLater(p, a, h.tc, t.tc, pos + SizeList(CCons(h.code, t.code)), outer, s, u, 0,
                       S.Exec(p.m, rest, labels, o.state, fuel), fuel);
        SimulatedLabels(p, a, h.tc, tc, t.tc, pos + SizeList(CCons(h.code, t.code)), outer, s,
                        S.Exec(p.m, rest, labels, o.state, fuel), fuel);
      }
  }

  lemma SameSite(p: Prog, a: Site, tc: Checker, tc': Checker, labels: seq<nat>)
    requires SiteOk(p, a, tc) && LabelsMatch(labels, tc) && tc'.labels == tc.labels
    ensures SiteOk(p, a, tc') && LabelsMatch(labels, tc')
  {
  }

  lemma SizedWf(p: Prog, ctx: Ctx, tc: Checker, below: seq<Word>, outer: seq<Word>, st: S.State)
    requires Sized(p, ctx, tc, below, outer, st)
    ensures Wf(tc)
  {
  }

  lemma SizedReachable(p: Prog, ctx: Ctx, tc: Checker, below: seq<Word>, outer: seq<Word>, st: S.State)
    requires Sized(p, ctx, tc, below, outer, st)
    ensures !tc.Top().unreachable
  {
  }

  /** Everything the body of a label needs, from what the instruction itself has. */
  lemma EnterSite(p: Prog, a: Site, tc: Checker, tc1: Checker, kind: Kind, sig: Sig, target: nat, outer: seq<Word>,
                  st: S.State, labels: seq<nat>)
    requires Runnable(p, a, tc, outer, st, labels) && Entered(tc, tc1, kind, sig) && target < TWO_32
    requires tc1.Top().limit + |sig.params| == |tc.types|
    ensures |sig.params| <= |st.stack|
    ensures var base, inner := S.Under(st.stack, |sig.params|), st.(stack := S.Take(st.stack, |sig.params|));
            && |outer + base| == tc1.Top().limit
            && Runnable(p, InsideSite(a, target), tc1, outer + base, inner, labels + [|tc1.Top().BrTypes()|])
            && forall pc, calls :: Conf(pc, a.below, outer, st, calls) == Conf(pc, a.below, outer + base, inner, calls)
  {
    hide Nested, Slots;
    FrameMove(a.below, st.locals, outer, st.stack, |sig.params|);
    assert tc1.labels == tc.labels + [tc1.Top()];
    assert tc1.labels[0] == tc.labels[0];
  }

  lemma EnterHeight(tc: Checker, kind: Kind, sig: Sig)
    requires Wf(tc) && !tc.Top().unreachable && EnterLabel(tc, kind, sig).Some?
    ensures EnterLabel(tc, kind, sig).value.Top().limit + |sig.params| == |tc.types|
    ensures Entered(tc, EnterLabel(tc, kind, sig).value, kind, sig)
  {
    PopHeight(tc, sig.params);
    EnterEntered(tc, kind, sig);
  }

  /** A list whose code ends inside the stream. */
  lemma ListEnd(p: Prog, env: Env, c: CodeList, pos: nat)
    requires Small(p) && CodeAt(p.code, pos, GenList(env, c, pos))
    ensures pos + SizeList(c) < TWO_32
  {
    GenListSize(env, c, pos);
  }

  lemma ElabBodyParts(ctx: Ctx, entered: Option<Checker>, body: ExprList)
    requires ElabBody(ctx, entered, body).Some?
    ensures entered.Some? && ElabList(ctx, entered.value, body).Some?
    ensures OnEnd(ElabList(ctx, entered.value, body).value.tc).Some?
    ensures ElabBody(ctx, entered, body).value
         == Elab(ElabList(ctx, entered.value, body).value.code,
                 OnEnd(ElabList(ctx, entered.value, body).value.tc).value)
  {
  }

  /** A label's body up to its end, from just inside it. */
  lemma {:induction false} SimBody(p: Prog, cs: seq<FuncCode>, a: Site, tc: Checker, tc1: Checker, tc3: Checker,
                                   kind: Kind,
                                   sig: Sig, body: ExprList, outer: seq<Word>, st: S.State, labels: seq<nat>,
                                   pos: nat, target: nat, fuel: nat)
    requires Loaded(p, cs) && CtxOk(p, a.ctx) && Runnable(p, a, tc, outer, st, labels)
    requires Entered(tc, tc1, kind, sig) && tc1.Top().limit + |sig.params| == |tc.types| && target < TWO_32
    requires ElabList(a.ctx, tc1, body).Some? && BalancedIfs(body)
    requires InOrderList(ElabList(a.ctx, tc1, body).value.code)
    requires CodeAt(p.code, pos, GenList(Inside(a.env, target), ElabList(a.ctx, tc1, body).value.code, pos))
    ensures |sig.params| <= |st.stack|
    ensures var r := ElabList(a.ctx, tc1, body).value;
            var base, inner := S.Under(st.stack, |sig.params|), st.(stack := S.Take(st.stack, |sig.params|));
            && |outer + base| == tc1.Top().limit
            && TypeChecker.Frame(tc1, r.tc)
            && Simulated(p, InsideSite(a, target), tc1, r.tc, pos + SizeList(r.code), outer + base,
                         Conf(pos, a.below, outer, st, a.calls),
                         S.Exec(p.m, body, labels + [|tc1.Top().BrTypes()|], inner, fuel), fuel)
    decreases fuel, 0, body, 1
  {
    hide CodeAt, GenList, ElabList, Loaded, CtxOk, Exhausts, Reaches, BalancedIfs, InOrderList, Slots, Runnable, Conf;
    EnterSite(p, a, tc, tc1, kind, sig, target, outer, st, labels);
    var base, inner := S.Under(st.stack, |sig.params|), st.(stack := S.Take(st.stack, |sig.params|));
    ListFrame(a.ctx, tc1, body);
    SimList(p, cs, InsideSite(a, target), tc1, body, outer + base, inner, labels + [|tc1.Top().BrTypes()|], pos, fuel);
  }

  function LabelExpr(kind: Kind, sig: Sig, body: ExprList): Expr {
    if kind == LoopLabel then Loop(sig, body) else Block(sig, body)
  }

  /** The offset that a branch to the label of a block or loop goes to. */
  function LabelOffset(kind: Kind, pos: nat, c: CodeList): nat {
    if kind == LoopLabel then pos else pos + SizeList(c)
  }

  /** A block or loop as the type checker sees it. */
  lemma LabelStatics(ctx: Ctx, tc: Checker, kind: Kind, sig: Sig, body: ExprList)
    requires kind == LoopLabel || kind == BlockLabel
    requires Wf(tc) && !tc.Top().unreachable && ElabExpr(ctx, tc, LabelExpr(kind, sig, body)).Some?
    ensures EnterLabel(tc, kind, sig).Some?
    ensures ElabList(ctx, EnterLabel(tc, kind, sig).value, body).Some?
    ensures OnEnd(ElabList(ctx, EnterLabel(tc, kind, sig).value, body).value.tc).Some?
    ensures var tc1 := EnterLabel(tc, kind, sig).value;
            var r := ElabList(ctx, tc1, body).value;
            var tc3 := OnEnd(r.tc).value;
            && Entered(tc, tc1, kind, sig) && tc1.Top().limit + |sig.params| == |tc.types|
            && Exits(tc, tc1, r.tc, tc3, kind, sig)
            && ElabExpr(ctx, tc, LabelExpr(kind, sig, body)).value
               == Elab(if kind == LoopLabel then LoopCode(r.code) else BlockCode(r.code), tc3)
            && |tc1.Top().BrTypes()| == (if kind == LoopLabel then |sig.params| else |sig.results|)
  {
    hide ElabList, Exits, Entered, EnterLabel, OnEnd;
    ElabBodyParts(ctx, EnterLabel(tc, kind, sig), body);
    EnterHeight(tc, kind, sig);
    var tc1 := EnterLabel(tc, kind, sig).value;
    var r := ElabList(ctx, tc1, body).value;
    EnteredTop(tc, tc1, kind, sig);
    EnteredWf(tc, tc1, kind, sig);
    ListFrame(ctx, tc1, body);
    EndExits(tc, tc1, r.tc, OnEnd(r.tc).value, kind, sig);
  }

  /** A block or loop taken apart. */
  lemma LabelParts(p: Prog, cs: seq<FuncCode>, a: Site, tc: Checker, kind: Kind, sig: Sig, body: ExprList,
                   outer: seq<Word>, st: S.State, labels: seq<nat>, pos: nat)
    requires kind == LoopLabel || kind == BlockLabel
    requires ExprReady(p, cs, a, tc, LabelExpr(kind, sig, body), outer, st, labels, pos)
    ensures EnterLabel(tc, kind, sig).Some?
    ensures ElabList(a.ctx, EnterLabel(tc, kind, sig).value, body).Some?
    ensures OnEnd(ElabList(a.ctx, EnterLabel(tc, kind, sig).value, body).value.tc).Some?
    ensures var tc1 := EnterLabel(tc, kind, sig).value;
            var r := ElabList(a.ctx, tc1, body).value;
            var tc3 := OnEnd(r.tc).value;
            && Loaded(p, cs) && CtxOk(p, a.ctx) && Runnable(p, a, tc, outer, st, labels)
            && Entered(tc, tc1, kind, sig) && tc1.Top().limit + |sig.params| == |tc.types|
            && Exits(tc, tc1, r.tc, tc3, kind, sig)
            && BalancedIfs(body) && InOrderList(r.code)
            && ElabExpr(a.ctx, tc, LabelExpr(kind, sig, body)).value
               == Elab(if kind == LoopLabel then LoopCode(r.code) else BlockCode(r.code), tc3)
            && CodeAt(p.code, pos, GenList(Inside(a.env, LabelOffset(kind, pos, r.code)), r.code, pos))
            && pos + SizeList(r.code) < TWO_32 && pos < TWO_32
            && |tc1.Top().BrTypes()| == (if kind == LoopLabel then |sig.params| else |sig.results|)
            && Wf(tc) && |outer| == tc.Top().limit && !tc.Top().unreachable && tc.labels[0].limit == 0
            && |a.env.labels| == |tc.labels|
  {
    hide CodeAt, GenList, ElabList, ElabExpr, Loaded, CtxOk, BalancedIfs, InOrderList, Exits, Entered, EnterLabel,
         OnEnd;
    hide LabelsMatch;
    LabelStatics(a.ctx, tc, kind, sig, body);
    var r := ElabList(a.ctx, EnterLabel(tc, kind, sig).value, body).value;
    ListEnd(p, Inside(a.env, LabelOffset(kind, pos, r.code)), r.code, pos);
  }

  lemma EnteredWf(tc: Checker, tc1: Checker, kind: Kind, sig: Sig)
    requires Entered(tc, tc1, kind, sig)
    ensures Wf(tc1)
  {
  }

  lemma {:induction false} SimBlock(p: Prog, cs: seq<FuncCode>, a: Site, tc: Checker, sig: Sig, body: ExprList,
                                    outer: seq<Word>, st: S.State, labels: seq<nat>, pos: nat, fuel: nat)
    requires ExprReady(p, cs, a, tc, Block(sig, body), outer, st, labels, pos)
    ensures var r := ElabExpr(a.ctx, tc, Block(sig, body)).value;
            Simulated(p, a, tc, r.tc, pos + Size(r.code), outer, Conf(pos, a.below, outer, st, a.calls),
                      S.ExecExpr(p.m, Block(sig, body), labels, st, fuel), fuel)
    decreases fuel, 0, body, 2
  {
    hide CodeAt, GenList, ElabList, ElabExpr, Loaded, CtxOk, Exhausts, Reaches, BalancedIfs, InOrderList, Slots, Conf;
    hide EnterLabel, OnEnd, Runnable, Entered, Exits, S.Exec, S.ExitLabel, ExprReady, Matches, SizeList, Inside;
    LabelParts(p, cs, a, tc, BlockLabel, sig, body, outer, st, labels, pos);
    var tc1 := EnterLabel(tc, BlockLabel, sig).value;
    var r := ElabList(a.ctx, tc1, body).value;
    var tc3 := OnEnd(r.tc).value;
    var end := pos + SizeList(r.code);
    SimBody(p, cs, a, tc, tc1, tc3, BlockLabel, sig, body, outer, st, labels, pos, end, fuel);
    var s := Conf(pos, a.below, outer, st, a.calls);
    if !Exhausts(p, s) {
      var base, inner := S.Under(st.stack, |sig.params|), st.(stack := S.Take(st.stack, |sig.params|));
      ExitSimulated(p, a, tc, tc1, r.tc, tc3, BlockLabel, sig, end, outer, base, s,
                    S.Exec(p.m, body, labels + [|sig.results|], inner, fuel), fuel);
    }
  }

  lemma SmallSite(p: Prog, a: Site, tc: Checker)
    requires SiteOk(p, a, tc)
    ensures Small(p) && |a.env.labels| == |tc.labels|
  {
  }

  lemma EnteredTop(tc: Checker, tc1: Checker, kind: Kind, sig: Sig)
    requires Entered(tc, tc1, kind, sig)
    ensures |tc1.Top().BrTypes()| == if kind == LoopLabel then |sig.params| else |sig.results|
  {
  }

  lemma {:induction false} SimLoop(p: Prog, cs: seq<FuncCode>, a: Site, tc: Checker, sig: Sig, body: ExprList,
                                   outer: seq<Word>, st: S.State, labels: seq<nat>, pos: nat, fuel: nat)
    requires ExprReady(p, cs, a, tc, Loop(sig, body), outer, st, labels, pos)
    ensures var r := ElabExpr(a.ctx, tc, Loop(sig, body)).value;
            Simulated(p, a, tc, r.tc, pos + Size(r.code), outer, Conf(pos, a.below, outer, st, a.calls),
                      S.ExecExpr(p.m, Loop(sig, body), labels, st, fuel), fuel)
    decreases fuel, 0, body, 2
  {
    hide CodeAt, GenList, ElabList, ElabExpr, Loaded, CtxOk, Exhausts, Reaches, BalancedIfs, InOrderList, Slots, Conf;
    hide EnterLabel, OnEnd, Runnable, Entered, Exits, S.Exec, S.ExitLabel, ExprReady, Matches, SizeList, Inside, Sized;
    hide S.ExecExpr;
    LabelParts(p, cs, a, tc, LoopLabel, sig, body, outer, st, labels, pos);
    var tc1 := EnterLabel(tc, LoopLabel, sig).value;
    var r := ElabList(a.ctx, tc1, body).value;
    var tc3 := OnEnd(r.tc).value;
    var end := pos + SizeList(r.code);
    SimBody(p, cs, a, tc, tc1, tc3, LoopLabel, sig, body, outer, st, labels, pos, pos, fuel);
    var s := Conf(pos, a.below, outer, st, a.calls);
    if !Exhausts(p, s) {
      var base, inner := S.Under(st.stack, |sig.params|), st.(stack := S.Take(st.stack, |sig.params|));
      var o := S.Exec(p.m, body, labels + [|sig.params|], inner, fuel);
      ExecLoop(p.m, sig, body, labels, st, fuel);
      if o.Branch? && o.depth == 0 {
        var st' := S.State(o.locals, base + o.vals, o.globals);
        LoopAgain(p, a, tc, tc1, r.tc, end, outer, base, s, sig, o, pos, fuel);
        ConfRunning(pos, a.below, outer, st, a.calls);
        SimAgain(p, cs, a, tc, tc3, sig, body, outer, st, st', labels, pos, end, s, fuel);
      } else {
        MatchesRetarget(p, a, tc1, r.tc, pos, end, outer + base, s, o, fuel);
        ExitSimulated(p, a, tc, tc1, r.tc, tc3, LoopLabel, sig, end, outer, base, s, o, fuel);
      }
    }
  }

  lemma ConfRunning(pc: nat, below: seq<Word>, outer: seq<Word>, st: S.State, calls: seq<nat>)
    ensures Conf(pc, below, outer, st, calls).status == Running
  {
  }

  /** The next iteration, when there is fuel for it. */
  lemma {:induction false} SimAgain(p: Prog, cs: seq<FuncCode>, a: Site, tc: Checker, tc3: Checker, sig: Sig,
                                    body: ExprList,
                                    outer: seq<Word>, st: S.State, st': S.State, labels: seq<nat>, pos: nat, end: nat,
                                    s: Config, fuel: nat)
    requires ExprReady(p, cs, a, tc, Loop(sig, body), outer, st, labels, pos)
    requires ElabExpr(a.ctx, tc, Loop(sig, body)).value.tc == tc3
    requires pos + Size(ElabExpr(a.ctx, tc, Loop(sig, body)).value.code) == end
    requires Sized(p, a.ctx, tc, a.below, outer, st') && s.status == Running
    requires Reaches(p, s, Conf(pos, a.below, outer, st', a.calls), 1)
    ensures Simulated(p, a, tc, tc3, end, outer, s,
                      if fuel == 0 then S.Timeout else S.ExecExpr(p.m, Loop(sig, body), labels, st', fuel - 1), fuel)
    decreases fuel, 0, body, 1
  {
    hide CodeAt, Gen, ElabExpr, Loaded, CtxOk, Exhausts, Reaches, BalancedIf, InOrderCode, Slots, Conf, Size;
    hide Runnable, ExprReady, Matches, Sized, S.ExecExpr;
    if fuel == 0 {
      SimNow(p, a, tc, tc3, end, outer, s);
    } else {
      LoopReady(p, cs, a, tc, sig, body, outer, st, st', labels, pos);
      SimLoop(p, cs, a, tc, sig, body, outer, st', labels, pos, fuel - 1);
      SimulatedStep(p, a, tc, tc3, end, outer, s, Conf(pos, a.below, outer, st', a.calls),
                    S.ExecExpr(p.m, Loop(sig, body), labels, st', fuel - 1), fuel - 1);
    }
  }

  lemma ExecLoop(m: Module, sig: Sig, body: ExprList, labels: seq<nat>, st: S.State, fuel: nat)
    requires |sig.params| <= |st.stack|
    ensures var base, inner := S.Under(st.stack, |sig.params|), st.(stack := S.Take(st.stack, |sig.params|));
            var o := S.Exec(m, body, labels + [|sig.params|], inner, fuel);
            S.ExecExpr(m, Loop(sig, body), labels, st, fuel)
            == if o.Branch? && o.depth == 0 then
                 if fuel == 0 then S.Timeout
                 else S.ExecExpr(m, Loop(sig, body), labels, S.State(o.locals, base + o.vals, o.globals), fuel - 1)
               else S.ExitLabel(o, base)
  {
    hide S.Exec, S.ExitLabel;
  }

  lemma LoopReady(p: Prog, cs: seq<FuncCode>, a: Site, tc: Checker, sig: Sig, body: ExprList, outer: seq<Word>,
                  st: S.State, st': S.State, labels: seq<nat>, pos: nat)
    requires ExprReady(p, cs, a, tc, Loop(sig, body), outer, st, labels, pos)
    requires Sized(p, a.ctx, tc, a.below, outer, st')
    ensures ExprReady(p, cs, a, tc, Loop(sig, body), outer, st', labels, pos)
  {
    hide CodeAt, Gen, ElabExpr, Loaded, CtxOk, BalancedIf, InOrderCode, SiteOk, LabelsMatch, Sized;
  }

  /** A branch back to a loop's start puts the machine where the loop began. */
  lemma LoopAgain(p: Prog, a: Site, tc: Checker, tc1: Checker, tc2: Checker, end: nat, outer: seq<Word>,
                  base: seq<Word>,
                  s: Config, sig: Sig, o: S.Outcome, pos: nat, fuel: nat)
    requires Wf(tc) && !tc.Top().unreachable && tc.labels[0].limit == 0 && |outer| == tc.Top().limit
    requires |a.env.labels| == |tc.labels|
    requires Entered(tc, tc1, LoopLabel, sig) && |outer + base| == tc1.Top().limit
    requires tc1.Top().limit + |sig.params| == |tc.types|
    requires o.Branch? && o.depth == 0
    requires Matches(p, InsideSite(a, pos), tc1, tc2, end, outer + base, s, o, fuel)
    ensures var st' := S.State(o.locals, base + o.vals, o.globals);
            && Sized(p, a.ctx, tc, a.below, outer, st')
            && Reaches(p, s, Conf(pos, a.below, outer, st', a.calls), 1)
  {
    hide Reaches, Nested, Slots;
    SlotsRegroup(a.below, o.locals, outer, base, o.vals);
    assert (outer + base)[..tc1.Top().limit] == outer + base;
  }

  /** Where a label's own branch goes is irrelevant to outcomes that do not take it. */
  lemma MatchesRetarget(p: Prog, a: Site, tc1: Checker, tc2: Checker, t: nat, t': nat, outer: seq<Word>,
                        s: Config, o: S.Outcome, fuel: nat)
    requires Matches(p, InsideSite(a, t), tc1, tc2, t', outer, s, o, fuel)
    requires !(o.Branch? && o.depth == 0)
    ensures Matches(p, InsideSite(a, t'), tc1, tc2, t', outer, s, o, fuel)
  {
    hide Reaches, Lasts, Traps, Conf, ReturnConf;
  }

  /** At least one step was taken before, which pays for one unit of fuel. */
  lemma SimulatedStep(p: Prog, a: Site, tc: Checker, after: Checker, next: nat, outer: seq<Word>,
                      s: Config, t: Config, o: S.Outcome, fuel: nat)
    requires Reaches(p, s, t, 1) && Simulated(p, a, tc, after, next, outer, t, o, fuel)
    ensures Simulated(p, a, tc, after, next, outer, s, o, fuel + 1)
  {
    hide Reaches, Lasts, Traps, Exhausts, Sized, Conf, ReturnConf, Landed;
    if Exhausts(p, t) {
      ExhaustsLater(p, s, t, 1);
    } else if o.Timeout? {
      LastsLater(p, s, t, 1, fuel);
    } else {
      SimulatedLater(p, a, tc, after, next, outer, s, t, 1, o, fuel);
    }
  }

  lemma OnIfParts(tc: Checker, sig: Sig)
    requires Wf(tc) && !tc.Top().unreachable && OnIf(tc, sig).Some?
    ensures PopSignature(tc, [I32]).Some?
    ensures var tc0 := PopSignature(tc, [I32]).value;
            var tc1 := OnIf(tc, sig).value;
            && Wf(tc0) && !tc0.Top().unreachable && tc0.labels == tc.labels
            && Entered(tc0, tc1, IfLabel, sig) && tc1.Top().limit + |sig.params| == |tc0.types|
  {
    PopHeight(tc, [I32]);
    PopFrame(tc, [I32]);
    EnterHeight(PopSignature(tc, [I32]).value, IfLabel, sig);
  }

  /** A false condition with nothing to run: sound because there are no parameters to leave behind. */
  lemma SkipMatches(p: Prog, a: Site, tc0: Checker, tc1: Checker, tc2: Checker, tc3: Checker, sig: Sig, target: nat,
                    outer: seq<Word>, st: S.State, s: Config, fuel: nat)
    requires Sized(p, a.ctx, tc0, a.below, outer, st)
    requires Exits(tc0, tc1, tc2, tc3, IfLabel, sig) && sig.params == [] && sig.results == []
    requires tc1.Top().limit == |tc0.types|
    requires Reaches(p, s, Conf(target, a.below, outer, st, a.calls), 1)
    ensures Matches(p, a, tc0, tc3, target, outer, s,
                    S.ExitLabel(S.Normal(st.(stack := S.Take(st.stack, 0))), S.Under(st.stack, 0)), fuel)
  {
    hide Reaches, Nested;
    assert S.Under(st.stack, 0) + S.Take(st.stack, 0) == st.stack;
    ReachesLess(p, s, Conf(target, a.below, outer, st, a.calls), 1, 0);
  }

  /** An `if` without `else` taken apart: what validation knows. */
  lemma IfChecked(ctx: Ctx, tc: Checker, sig: Sig, thn: ExprList, els: ExprList)
    requires Wf(tc) && !tc.Top().unreachable && ElabExpr(ctx, tc, If(sig, thn, false, els)).Some?
    ensures PopSignature(tc, [I32]).Some? && OnIf(tc, sig).Some? && ElabList(ctx, OnIf(tc, sig).value, thn).Some?
    ensures OnEnd(ElabList(ctx, OnIf(tc, sig).value, thn).value.tc).Some?
    ensures var tc0, tc1 := PopSignature(tc, [I32]).value, OnIf(tc, sig).value;
            var r := ElabList(ctx, tc1, thn).value;
            var tc3 := OnEnd(r.tc).value;
            && ElabExpr(ctx, tc, If(sig, thn, false, els)).value == Elab(IfCode(r.code), tc3)
            && tc0.labels == tc.labels
            && Entered(tc0, tc1, IfLabel, sig) && tc1.Top().limit + |sig.params| == |tc0.types|
            && Exits(tc0, tc1, r.tc, tc3, IfLabel, sig)
            && sig.results == []
            && |tc1.Top().BrTypes()| == |sig.results|
  {
    hide ElabList, OnIf, OnEnd, Entered, Exits, PopSignature;
    ElabBodyParts(ctx, OnIf(tc, sig), thn);
    OnIfParts(tc, sig);
    var tc0, tc1 := PopSignature(tc, [I32]).value, OnIf(tc, sig).value;
    var r := ElabList(ctx, tc1, thn).value;
    EnteredTop(tc0, tc1, IfLabel, sig);
    EnteredWf(tc0, tc1, IfLabel, sig);
    ListFrame(ctx, tc1, thn);
    EndExits(tc0, tc1, r.tc, OnEnd(r.tc).value, IfLabel, sig);
    EnteredLabel(tc0, tc1, IfLabel, sig);
    IfNoResults(ctx, tc1, r.tc, sig);
  }

  /** Its code, and the machine after the condition. */
  lemma IfParts(p: Prog, cs: seq<FuncCode>, a: Site, tc: Checker, sig: Sig, thn: ExprList, els: ExprList,
                outer: seq<Word>, st: S.State, labels: seq<nat>, pos: nat)
    requires ExprReady(p, cs, a, tc, If(sig, thn, false, els), outer, st, labels, pos)
    requires PopSignature(tc, [I32]).Some? && PopSignature(tc, [I32]).value.labels == tc.labels
    requires OnIf(tc, sig).Some? && ElabList(a.ctx, OnIf(tc, sig).value, thn).Some?
    requires ElabExpr(a.ctx, tc, If(sig, thn, false, els)).value.code
             == IfCode(ElabList(a.ctx, OnIf(tc, sig).value, thn).value.code)
    ensures |st.stack| >= 1
    ensures var tc0 := PopSignature(tc, [I32]).value;
            var r := ElabList(a.ctx, OnIf(tc, sig).value, thn).value;
            var end := pos + 5 + SizeList(r.code);
            var st0 := st.(stack := S.Under(st.stack, 1));
            && Loaded(p, cs) && CtxOk(p, a.ctx)
            && Runnable(p, a, tc0, outer, st0, labels) && Sized(p, a.ctx, tc0, a.below, outer, st0)
            && sig.params == []
            && BalancedIfs(thn) && InOrderList(r.code)
            && CodeAt(p.code, pos + 5, GenList(Inside(a.env, end), r.code, pos + 5))
            && end < TWO_32
            && Reaches(p, Conf(pos, a.below, outer, st, a.calls),
                       Conf(if S.Top(st.stack) % TWO_32 != 0 then pos + 5 else end, a.below, outer, st0, a.calls), 1)
  {
    hide CodeAt, GenList, ElabList, ElabExpr, Loaded, CtxOk, Reaches, BalancedIfs, InOrderList, Conf;
    hide OnIf, SiteOk, LabelsMatch, PopSignature, Encode, Sized;
    var tc0 := PopSignature(tc, [I32]).value;
    var r := ElabList(a.ctx, OnIf(tc, sig).value, thn).value;
    var end := pos + 5 + SizeList(r.code);
    SmallSite(p, a, tc);
    SameSite(p, a, tc, tc0, labels);
    CodeAtSplit(p.code, pos, Encode(IBrUnless(end)), GenList(Inside(a.env, end), r.code, pos + 5));
    ListEnd(p, Inside(a.env, end), r.code, pos + 5);
    SimGuard(p, a, tc, outer, st, pos, end);
  }

  lemma EnteredLabel(tc: Checker, tc1: Checker, kind: Kind, sig: Sig)
    requires Entered(tc, tc1, kind, sig)
    ensures tc1.Top().kind == kind && tc1.Top().results == sig.results
  {
  }

  lemma {:induction false} SimIf(p: Prog, cs: seq<FuncCode>, a: Site, tc: Checker, sig: Sig, thn: ExprList,
                                 els: ExprList,
                                 outer: seq<Word>, st: S.State, labels: seq<nat>, pos: nat, fuel: nat)
    requires ExprReady(p, cs, a, tc, If(sig, thn, false, els), outer, st, labels, pos)
    ensures var r := ElabExpr(a.ctx, tc, If(sig, thn, false, els)).value;
            Simulated(p, a, tc, r.tc, pos + Size(r.code), outer, Conf(pos, a.below, outer, st, a.calls),
                      S.ExecExpr(p.m, If(sig, thn, false, els), labels, st, fuel), fuel)
    decreases fuel, 0, thn, 2
  {
    hide CodeAt, GenList, ElabList, ElabExpr, Loaded, CtxOk, Exhausts, Reaches, BalancedIfs, InOrderList, Slots, Conf;
    hide OnIf, OnEnd, Runnable, Entered, Exits, S.Exec, S.ExitLabel, ExprReady, Matches, SizeList, Inside,
         PopSignature, Sized;
    ReadyHeight(p, cs, a, tc, If(sig, thn, false, els), outer, st, labels, pos);
    IfChecked(a.ctx, tc, sig, thn, els);
    IfParts(p, cs, a, tc, sig, thn, els, outer, st, labels, pos);
    var tc0, tc1 := PopSignature(tc, [I32]).value, OnIf(tc, sig).value;
    var r := ElabList(a.ctx, tc1, thn).value;
    var tc3 := OnEnd(r.tc).value;
    var end := pos + 5 + SizeList(r.code);
    var st0 := st.(stack := S.Under(st.stack, 1));
    var s := Conf(pos, a.below, outer, st, a.calls);
    var base, inner := S.Under(st0.stack, 0), st0.(stack := S.Take(st0.stack, 0));
    if S.Top(st.stack) % TWO_32 != 0 {
      var u := Conf(pos + 5, a.below, outer, st0, a.calls);
      SimBody(p, cs, a, tc0, tc1, tc3, IfLabel, sig, thn, outer, st0, labels, pos + 5, end, fuel);
      var o := S.Exec(p.m, thn, labels + [0], inner, fuel);
      if !Exhausts(p, u) {
        RunnableHeight(p, a, tc0, outer, st0, labels);
        ExitSimulated(p, a, tc0, tc1, r.tc, tc3, IfLabel, sig, end, outer, base, u, o, fuel);
      }
      SimulatedLater(p, a, tc0, tc3, end, outer, s, u, 1, S.ExitLabel(o, base), fuel);
      SimulatedLabels(p, a, tc0, tc, tc3, end, outer, s, S.ExitLabel(o, base), fuel);
    } else {
      SkipMatches(p, a, tc0, tc1, r.tc, tc3, sig, end, outer, st0, s, fuel);
      SimulatedLabels(p, a, tc0, tc, tc3, end, outer, s, S.ExitLabel(S.Normal(inner), base), fuel);
    }
  }

  lemma ReadyHeight(p: Prog, cs: seq<FuncCode>, a: Site, tc: Checker, e: Expr, outer: seq<Word>, st: S.State,
                    labels: seq<nat>, pos: nat)
    requires ExprReady(p, cs, a, tc, e, outer, st, labels, pos)
    ensures Wf(tc) && !tc.Top().unreachable && ElabExpr(a.ctx, tc, e).Some?
  {
  }

  lemma RunnableHeight(p: Prog, a: Site, tc: Checker, outer: seq<Word>, st: S.State, labels: seq<nat>)
    requires Runnable(p, a, tc, outer, st, labels)
    ensures Wf(tc) && |outer| == tc.Top().limit && !tc.Top().unreachable && tc.labels[0].limit == 0
    ensures |a.env.labels| == |tc.labels|
  {
  }

  /** Validation rejects results on an `if` without `else`. */
  lemma IfNoResults(ctx: Ctx, tc1: Checker, tc2: Checker, sig: Sig)
    requires TypeChecker.Frame(tc1, tc2) && tc1.Top().kind == IfLabel && tc1.Top().results == sig.results
    requires OnEnd(tc2).Some?
    ensures sig.results == []
  {
    hide LeaveLabel;
  }

  /** An `if` with `else` taken apart: what validation knows. */
  lemma IfElseChecked(ctx: Ctx, tc: Checker, sig: Sig, thn: ExprList, els: ExprList)
    requires Wf(tc) && !tc.Top().unreachable && ElabExpr(ctx, tc, If(sig, thn, true, els)).Some?
    ensures PopSignature(tc, [I32]).Some? && OnIf(tc, sig).Some? && ElabList(ctx, OnIf(tc, sig).value, thn).Some?
    ensures OnElse(ElabList(ctx, OnIf(tc, sig).value, thn).value.tc).Some?
    ensures var tc2 := ElabList(ctx, OnIf(tc, sig).value, thn).value.tc;
            && ElabList(ctx, OnElse(tc2).value, els).Some?
            && OnEnd(ElabList(ctx, OnElse(tc2).value, els).value.tc).Some?
    ensures var tc0, tc1 := PopSignature(tc, [I32]).value, OnIf(tc, sig).value;
            var t := ElabList(ctx, tc1, thn).value;
            var tc3 := OnElse(t.tc).value;
            var e := ElabList(ctx, tc3, els).value;
            var tc5 := OnEnd(e.tc).value;
            && ElabExpr(ctx, tc, If(sig, thn, true, els)).value == Elab(IfElseCode(t.code, e.code), tc5)
            && tc0.labels == tc.labels
            && Entered(tc0, tc1, IfLabel, sig) && tc1.Top().limit + |sig.params| == |tc0.types|
            && Entered(tc0, tc3, ElseLabel, sig) && tc3.Top().limit + |sig.params| == |tc0.types|
            && Exits(tc0, tc1, t.tc, tc5, IfLabel, sig)
            && Exits(tc0, tc3, e.tc, tc5, ElseLabel, sig)
            && |tc1.Top().BrTypes()| == |tc3.Top().BrTypes()| == |sig.results|
  {
    hide ElabList, OnIf, OnElse, OnEnd, Entered, Exits, PopSignature;
    ElabThenParts(ctx, OnIf(tc, sig), thn);
    OnIfParts(tc, sig);
    var tc0, tc1 := PopSignature(tc, [I32]).value, OnIf(tc, sig).value;
    var t := ElabList(ctx, tc1, thn).value;
    var tc3 := OnElse(t.tc).value;
    ElabBodyParts(ctx, Some(tc3), els);
    var e := ElabList(ctx, tc3, els).value;
    EnteredWf(tc0, tc1, IfLabel, sig);
    ListFrame(ctx, tc1, thn);
    ElseEntered(tc0, tc1, t.tc, tc3, sig);
    ElseLimit(tc1, t.tc, tc3);
    EnteredWf(tc0, tc3, ElseLabel, sig);
    ListFrame(ctx, tc3, els);
    EndExits(tc0, tc3, e.tc, OnEnd(e.tc).value, ElseLabel, sig);
    ElseExits(tc0, tc1, t.tc, tc3, e.tc, OnEnd(e.tc).value, sig);
    EnteredTop(tc0, tc1, IfLabel, sig);
    EnteredTop(tc0, tc3, ElseLabel, sig);
  }

  lemma ElabThenParts(ctx: Ctx, entered: Option<Checker>, thn: ExprList)
    requires ElabThen(ctx, entered, thn).Some?
    ensures entered.Some? && ElabList(ctx, entered.value, thn).Some?
    ensures OnElse(ElabList(ctx, entered.value, thn).value.tc).Some?
    ensures ElabThen(ctx, entered, thn).value
         == Elab(ElabList(ctx, entered.value, thn).value.code, OnElse(ElabList(ctx, entered.value, thn).value.tc).value)
  {
  }

  lemma ElseLimit(tc1: Checker, tc2: Checker, tc3: Checker)
    requires TypeChecker.Frame(tc1, tc2) && OnElse(tc2) == Some(tc3)
    ensures tc3.Top().limit == tc1.Top().limit
  {
    hide CheckSignature, Nested;
  }

  /** The code of an `if` with `else`. */
  lemma IfElseCodeAt(code: seq<Byte>, env: Env, t: CodeList, e: CodeList, pos: nat)
    requires CodeAt(code, pos, Gen(env, IfElseCode(t, e), pos))
    ensures var elsPos := pos + 5 + SizeList(t) + 5;
            var end := elsPos + SizeList(e);
            && CodeAt(code, pos, Encode(IBrUnless(elsPos)))
            && CodeAt(code, pos + 5, GenList(Inside(env, end), t, pos + 5))
            && CodeAt(code, elsPos - 5, Encode(IBr(end)))
            && CodeAt(code, elsPos, GenList(Inside(env, end), e, elsPos))
            && end <= |code|
  {
    hide CodeAt, GenList, Encode, SizeList;
    var elsPos := pos + 5 + SizeList(t) + 5;
    var end := elsPos + SizeList(e);
    var b, f := GenList(Inside(env, end), t, pos + 5), GenList(Inside(env, end), e, elsPos);
    GenListSize(Inside(env, end), t, pos + 5);
    GenListSize(Inside(env, end), e, elsPos);
    CodeAtSplit(code, pos, Encode(IBrUnless(elsPos)) + b, Encode(IBr(end)) + f);
    CodeAtSplit(code, pos, Encode(IBrUnless(elsPos)), b);
    CodeAtSplit(code, elsPos - 5, Encode(IBr(end)), f);
    CodeAtEnd(code, elsPos, f);
  }

  /** The end of the true branch jumps over the false one. */
  lemma JumpOver(p: Prog, a: Site, tc1: Checker, tc2: Checker, from: nat, to: nat, outer: seq<Word>,
                 s: Config, o: S.Outcome, fuel: nat)
    requires Matches(p, a, tc1, tc2, from, outer, s, o, fuel)
    requires CodeAt(p.code, from, Encode(IBr(to))) && to < TWO_32
    ensures Matches(p, a, tc1, tc2, to, outer, s, o, fuel)
  {
    hide CodeAt, Encode, Reaches, Lasts, Traps, Sized, ReturnConf, Landed, Slots;
    if o.Normal? {
      var u := Conf(from, a.below, outer, o.state, a.calls);
      var v := Conf(to, a.below, outer, o.state, a.calls);
      StepInstr(p, u, IBr(to));
      ReachesTrans(p, s, u, v, 0, 1);
      ReachesLess(p, s, v, 1, 0);
    }
  }

  /** One branch of an `if`, from just inside it to just outside: the true branch ends with a jump
      over the false one. */
  lemma {:induction false} SimArm(p: Prog, cs: seq<FuncCode>, a: Site, tc: Checker, tc1: Checker, tc3: Checker,
                                  kind: Kind,
                                  sig: Sig, arm: ExprList, outer: seq<Word>, st: S.State, labels: seq<nat>,
                                  pos: nat, end: nat, fuel: nat)
    requires Loaded(p, cs) && CtxOk(p, a.ctx) && Runnable(p, a, tc, outer, st, labels)
    requires kind == IfLabel || kind == ElseLabel
    requires Entered(tc, tc1, kind, sig) && tc1.Top().limit + |sig.params| == |tc.types| && end < TWO_32
    requires ElabList(a.ctx, tc1, arm).Some? && BalancedIfs(arm) && |tc1.Top().BrTypes()| == |sig.results|
    requires Exits(tc, tc1, ElabList(a.ctx, tc1, arm).value.tc, tc3, kind, sig)
    requires InOrderList(ElabList(a.ctx, tc1, arm).value.code)
    requires CodeAt(p.code, pos, GenList(Inside(a.env, end), ElabList(a.ctx, tc1, arm).value.code, pos))
    requires var r := ElabList(a.ctx, tc1, arm).value;
             if kind == IfLabel then CodeAt(p.code, pos + SizeList(r.code), Encode(IBr(end)))
             else pos + SizeList(r.code) == end
    ensures |sig.params| <= |st.stack|
    ensures var base, inner := S.Under(st.stack, |sig.params|), st.(stack := S.Take(st.stack, |sig.params|));
            Simulated(p, a, tc, tc3, end, outer, Conf(pos, a.below, outer, st, a.calls),
                      S.ExitLabel(S.Exec(p.m, arm, labels + [|sig.results|], inner, fuel), base), fuel)
    decreases fuel, 0, arm, 2
  {
    hide CodeAt, GenList, ElabList, Loaded, CtxOk, Exhausts, Reaches, BalancedIfs, InOrderList, Slots, Conf, Encode;
    hide Runnable, Entered, Exits, S.Exec, S.ExitLabel, Matches, SizeList, Inside, Wf;
    RunnableHeight(p, a, tc, outer, st, labels);
    SimBody(p, cs, a, tc, tc1, tc3, kind, sig, arm, outer, st, labels, pos, end, fuel);
    var r := ElabList(a.ctx, tc1, arm).value;
    var s := Conf(pos, a.below, outer, st, a.calls);
    var base, inner := S.Under(st.stack, |sig.params|), st.(stack := S.Take(st.stack, |sig.params|));
    var o := S.Exec(p.m, arm, labels + [|sig.results|], inner, fuel);
    if !Exhausts(p, s) {
      if kind == IfLabel {
        JumpOver(p, InsideSite(a, end), tc1, r.tc, pos + SizeList(r.code), end, outer + base, s, o, fuel);
      }
      ExitSimulated(p, a, tc, tc1, r.tc, tc3, kind, sig, end, outer, base, s, o, fuel);
    }
  }

  lemma {:induction false} SimIfElse(p: Prog, cs: seq<FuncCode>, a: Site, tc: Checker, sig: Sig, thn: ExprList,
                                     els: ExprList,
                                     outer: seq<Word>, st: S.State, labels: seq<nat>, pos: nat, fuel: nat)
    requires ExprReady(p, cs, a, tc, If(sig, thn, true, els), outer, st, labels, pos)
    ensures var r := ElabExpr(a.ctx, tc, If(sig, thn, true, els)).value;
            Simulated(p, a, tc, r.tc, pos + Size(r.code), outer, Conf(pos, a.below, outer, st, a.calls),
                      S.ExecExpr(p.m, If(sig, thn, true, els), labels, st, fuel), fuel)
    decreases fuel, 0, If(sig, thn, true, els), -1
  {
    hide CodeAt, GenList, ElabList, ElabExpr, Loaded, CtxOk, Exhausts, Reaches, BalancedIfs, InOrderList, Slots, Conf,
         Encode;
    hide OnIf, OnElse, OnEnd, Runnable, Entered, Exits, S.Exec, S.ExitLabel, ExprReady, Simulated, SizeList, Inside;
    hide PopSignature, Sized, Wf;
    ReadyHeight(p, cs, a, tc, If(sig, thn, true, els), outer, st, labels, pos);
    IfElseChecked(a.ctx, tc, sig, thn, els);
    var tc0, tc1 := PopSignature(tc, [I32]).value, OnIf(tc, sig).value;
    var t := ElabList(a.ctx, tc1, thn).value;
    var tc3 := OnElse(t.tc).value;
    var e := ElabList(a.ctx, tc3, els).value;
    var tc5 := OnEnd(e.tc).value;
    IfElseParts(p, cs, a, tc, sig, thn, els, t.code, e.code, outer, st, labels, pos);
    var elsPos := pos + 5 + SizeList(t.code) + 5;
    var end := elsPos + SizeList(e.code);
    var st0 := st.(stack := S.Under(st.stack, 1));
    var s := Conf(pos, a.below, outer, st, a.calls);
    if S.Top(st.stack) % TWO_32 != 0 {
      SimArm(p, cs, a, tc0, tc1, tc5, IfLabel, sig, thn, outer, st0, labels, pos + 5, end, fuel);
      var base, inner := S.Under(st0.stack, |sig.params|), st0.(stack := S.Take(st0.stack, |sig.params|));
      BranchTaken(p, a, tc, tc0, tc5, end, outer, s, Conf(pos + 5, a.below, outer, st0, a.calls),
                  S.ExitLabel(S.Exec(p.m, thn, labels + [|sig.results|], inner, fuel), base), fuel);
    } else {
      SimArm(p, cs, a, tc0, tc3, tc5, ElseLabel, sig, els, outer, st0, labels, elsPos, end, fuel);
      var base, inner := S.Under(st0.stack, |sig.params|), st0.(stack := S.Take(st0.stack, |sig.params|));
      BranchTaken(p, a, tc, tc0, tc5, end, outer, s, Conf(elsPos, a.below, outer, st0, a.calls),
                  S.ExitLabel(S.Exec(p.m, els, labels + [|sig.results|], inner, fuel), base), fuel);
    }
  }

  lemma BranchTaken(p: Prog, a: Site, tc: Checker, tc0: Checker, tc5: Checker, end: nat, outer: seq<Word>,
                    s: Config, u: Config, o: S.Outcome, fuel: nat)
    requires tc0.labels == tc.labels && Reaches(p, s, u, 1)
    requires Simulated(p, a, tc0, tc5, end, outer, u, o, fuel)
    ensures Simulated(p, a, tc, tc5, end, outer, s, o, fuel)
  {
    hide Simulated, Reaches;
    SimulatedLater(p, a, tc0, tc5, end, outer, s, u, 1, o, fuel);
    SimulatedLabels(p, a, tc0, tc, tc5, end, outer, s, o, fuel);
  }

  lemma IfElseParts(p: Prog, cs: seq<FuncCode>, a: Site, tc: Checker, sig: Sig, thn: ExprList, els: ExprList,
                    t: CodeList, e: CodeList, outer: seq<Word>, st: S.State, labels: seq<nat>, pos: nat)
    requires ExprReady(p, cs, a, tc, If(sig, thn, true, els), outer, st, labels, pos)
    requires PopSignature(tc, [I32]).Some? && PopSignature(tc, [I32]).value.labels == tc.labels
    requires ElabExpr(a.ctx, tc, If(sig, thn, true, els)).value.code == IfElseCode(t, e)
    ensures |st.stack| >= 1
    ensures var tc0 := PopSignature(tc, [I32]).value;
            var elsPos := pos + 5 + SizeList(t) + 5;
            var end := elsPos + SizeList(e);
            var st0 := st.(stack := S.Under(st.stack, 1));
            && Loaded(p, cs) && CtxOk(p, a.ctx)
            && Runnable(p, a, tc0, outer, st0, labels)
            && BalancedIfs(thn) && InOrderList(t) && BalancedIfs(els) && InOrderList(e)
            && CodeAt(p.code, pos + 5, GenList(Inside(a.env, end), t, pos + 5))
            && CodeAt(p.code, elsPos - 5, Encode(IBr(end)))
            && CodeAt(p.code, elsPos, GenList(Inside(a.env, end), e, elsPos))
            && end < TWO_32
            && Reaches(p, Conf(pos, a.below, outer, st, a.calls),
                       Conf(if S.Top(st.stack) % TWO_32 != 0 then pos + 5 else elsPos, a.below, outer, st0, a.calls), 1)
  {
    hide CodeAt, Gen, GenList, ElabExpr, Loaded, CtxOk, Reaches, BalancedIfs, InOrderList, Conf;
    hide SiteOk, LabelsMatch, PopSignature, Encode, Sized;
    var tc0 := PopSignature(tc, [I32]).value;
    SmallSite(p, a, tc);
    SameSite(p, a, tc, tc0, labels);
    IfElseCodeAt(p.code, a.env, t, e, pos);
    SimGuard(p, a, tc, outer, st, pos, pos + 5 + SizeList(t) + 5);
  }

  lemma CallSize(ctx: Ctx, tc: Checker, f: nat)
    requires ElabCall(ctx, tc, f).Some?
    ensures ElabCall(ctx, tc, f).value.code == CallCode(f) && Size(CallCode(f)) == 5
  {
    hide OnCall;
  }

  lemma {:induction false} SimExpr(p: Prog, cs: seq<FuncCode>, a: Site, tc: Checker, e: Expr, outer: seq<Word>,
                                   st: S.State, labels: seq<nat>, pos: nat, fuel: nat)
    requires ExprReady(p, cs, a, tc, e, outer, st, labels, pos)
    ensures var r := ElabExpr(a.ctx, tc, e).value;
            Simulated(p, a, tc, r.tc, pos + Size(r.code), outer, Conf(pos, a.below, outer, st, a.calls),
                      S.ExecExpr(p.m, e, labels, st, fuel), fuel)
    decreases fuel, 0, e, 0
  {
    hide Simulated, CodeAt, ElabBody, ElabThen, Loaded, CtxOk, Runnable, Conf, Gen, Size, S.ExecOp, S.BranchTo,
         S.CallFunc;
    hide ElabSimple, ElabBr, ElabBrIf, ElabBrTable, ElabReturn, OnCall, InOrderCode, S.Exec, EncodeAll;
    match e
    case Simple(op) => SimSimple(p, a, tc, op, outer, st, labels, pos, fuel);
    case Block(sig, body) => SimBlock(p, cs, a, tc, sig, body, outer, st, labels, pos, fuel);
    case Loop(sig, body) => SimLoop(p, cs, a, tc, sig, body, outer, st, labels, pos, fuel);
    case If(sig, thn, hasElse, els) =>
      if hasElse {
        SimIfElse(p, cs, a, tc, sig, thn, els, outer, st, labels, pos, fuel);
      } else {
        SimIf(p, cs, a, tc, sig, thn, els, outer, st, labels, pos, fuel);
      }
    case Br(d) => SimBr(p, a, tc, d, outer, st, labels, pos, fuel);
    case BrIf(d) => SimBrIf(p, a, tc, d, outer, st, labels, pos, fuel);
    case BrTable(targets, default) => SimBrTable(p, a, tc, targets, default, outer, st, labels, pos, fuel);
    case Return => SimReturnExpr(p, a, tc, outer, st, labels, pos, fuel);
    case Call(f) =>
      CallSize(a.ctx, tc, f);
      SimCall(p, cs, a, tc, f, outer, st, labels, pos, fuel);
    case Unreachable => SimUnreachable(p, a, tc, outer, st, pos, fuel);
  }
}
