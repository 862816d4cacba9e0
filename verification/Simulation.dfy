/** Runs of the machine, and how a frame of the structured semantics lies on its value stack. */
module Simulation {
  import opened Syntax
  import opened Bytecode
  import opened Machine
  import opened TypeChecker
  import opened Elaborate
  import opened Layout
  import opened DropKeepSpec
  import S = Semantics

  /** A module with its code in the stream and the sizes of the machine's stacks. */
  datatype Prog = Prog(m: Module, code: seq<Byte>, offsets: seq<nat>, lim: Limits)

  // ----- Runs --------------------------------------------------------------------------------

  ghost predicate Reaches(p: Prog, s: Config, t: Config, least: nat) {
    exists n: nat :: n >= least && Run(p.code, p.lim, s, n) == t
  }

  /** One of the two stacks runs out. */
  ghost predicate Exhausts(p: Prog, s: Config) {
    exists n: nat :: Run(p.code, p.lim, s, n).Exhausted()
  }

  ghost predicate Traps(p: Prog, s: Config, kind: S.TrapKind) {
    exists n: nat :: Run(p.code, p.lim, s, n).status == Trapped(kind)
  }

  /** Still running after `k` steps or more. */
  ghost predicate Lasts(p: Prog, s: Config, k: nat) {
    exists n: nat :: n >= k && Run(p.code, p.lim, s, n).status == Running
  }

  lemma ReachesNow(p: Prog, s: Config)
    ensures Reaches(p, s, s, 0)
    ensures s.status == Running ==> Lasts(p, s, 0)
  {
    assert Run(p.code, p.lim, s, 0) == s;
  }

  lemma ReachesStep(p: Prog, s: Config)
    ensures Reaches(p, s, Step(p.code, p.lim, s), 1)
  {
    var t := Step(p.code, p.lim, s);
    assert Run(p.code, p.lim, t, 0) == t;
    assert Run(p.code, p.lim, s, 1) == t;
  }

  lemma ReachesTrans(p: Prog, s: Config, t: Config, u: Config, a: nat, b: nat)
    requires Reaches(p, s, t, a) && Reaches(p, t, u, b)
    ensures Reaches(p, s, u, a + b)
  {
    var n: nat :| n >= a && Run(p.code, p.lim, s, n) == t;
    var k: nat :| k >= b && Run(p.code, p.lim, t, k) == u;
    RunAdd(p.code, p.lim, s, n, k);
    assert Run(p.code, p.lim, s, n + k) == u;
  }

  lemma ReachesLess(p: Prog, s: Config, t: Config, a: nat, b: nat)
    requires Reaches(p, s, t, a) && b <= a
    ensures Reaches(p, s, t, b)
  {
  }

  lemma ExhaustsLater(p: Prog, s: Config, t: Config, a: nat)
    requires Reaches(p, s, t, a) && Exhausts(p, t)
    ensures Exhausts(p, s)
  {
    var n: nat :| n >= a && Run(p.code, p.lim, s, n) == t;
    var k: nat :| Run(p.code, p.lim, t, k).Exhausted();
    RunAdd(p.code, p.lim, s, n, k);
    assert Run(p.code, p.lim, s, n + k).Exhausted();
  }

  lemma TrapsLater(p: Prog, s: Config, t: Config, a: nat, kind: S.TrapKind)
    requires Reaches(p, s, t, a) && Traps(p, t, kind)
    ensures Traps(p, s, kind)
  {
    var n: nat :| n >= a && Run(p.code, p.lim, s, n) == t;
    var k: nat :| Run(p.code, p.lim, t, k).status == Trapped(kind);
    RunAdd(p.code, p.lim, s, n, k);
    assert Run(p.code, p.lim, s, n + k).status == Trapped(kind);
  }

  lemma LastsLater(p: Prog, s: Config, t: Config, a: nat, b: nat)
    requires Reaches(p, s, t, a) && Lasts(p, t, b)
    ensures Lasts(p, s, a + b)
  {
    var n: nat :| n >= a && Run(p.code, p.lim, s, n) == t;
    var k: nat :| k >= b && Run(p.code, p.lim, t, k).status == Running;
    RunAdd(p.code, p.lim, s, n, k);
    assert Run(p.code, p.lim, s, n + k).status == Running;
  }

  /** One emitted instruction. */
  lemma StepInstr(p: Prog, s: Config, i: Instr)
    requires s.status == Running && CodeAt(p.code, s.pc, Encode(i)) && InRange(i)
    ensures Step(p.code, p.lim, s) == Execute(p.code, p.lim, s.(pc := s.pc + InstrSize(i)), i)
    ensures Reaches(p, s, Execute(p.code, p.lim, s.(pc := s.pc + InstrSize(i)), i), 1)
  {
    hide Execute, Encode;
    FetchEncode(p.code, s.pc, i);
    ReachesStep(p, s);
  }

  lemma ExhaustedNow(p: Prog, s: Config, t: Config)
    requires Reaches(p, s, t, 1) && t.Exhausted()
    ensures Exhausts(p, s)
  {
  }

  // ----- Frames ------------------------------------------------------------------------------

  /** The value stack of one activation: callers' values, locals, operands of the outer labels,
      operands of the innermost label. */
  function Slots(below: seq<Word>, locals: seq<Word>, outer: seq<Word>, stack: seq<Word>): seq<Word> {
    below + locals + (outer + stack)
  }

  function Conf(pc: nat, below: seq<Word>, outer: seq<Word>, st: S.State, calls: seq<nat>): Config {
    Config(Running, pc, Slots(below, st.locals, outer, st.stack), calls, st.globals)
  }

  /** The validator's view of the frame is the frame: the dynamic height is the static one. */
  predicate Sized(p: Prog, ctx: Ctx, tc: Checker, below: seq<Word>, outer: seq<Word>, st: S.State) {
    && Wf(tc)
    && !tc.Top().unreachable
    && tc.labels[0].limit == 0
    && |st.locals| == |ctx.locals|
    && |st.globals| == |ctx.globals|
    && |outer| == tc.Top().limit
    && |outer| + |st.stack| == |tc.types|
    && |below| + |st.locals| + |tc.types| <= p.lim.values
  }

  lemma FramePush(below: seq<Word>, locals: seq<Word>, outer: seq<Word>, stack: seq<Word>, v: Word)
    ensures Slots(below, locals, outer, stack) + [v] == Slots(below, locals, outer, stack + [v])
  {
  }

  lemma FramePop(below: seq<Word>, locals: seq<Word>, outer: seq<Word>, stack: seq<Word>, n: nat)
    requires n <= |stack|
    ensures var f := Slots(below, locals, outer, stack);
            f[..|f| - n] == Slots(below, locals, outer, S.Under(stack, n))
    ensures var f := Slots(below, locals, outer, stack);
            && |f| >= n
            && (n >= 1 ==> f[|f| - 1] == stack[|stack| - 1])
            && (n >= 2 ==> f[|f| - 2] == stack[|stack| - 2])
            && (n >= 3 ==> f[|f| - 3] == stack[|stack| - 3])
  {
  }

  /** A translated local depth hits exactly its own local. */
  lemma FrameLocal(below: seq<Word>, locals: seq<Word>, outer: seq<Word>, stack: seq<Word>, x: nat, v: Word)
    requires x < |locals|
    ensures var f := Slots(below, locals, outer, stack);
            var depth := |outer| + |stack| + |locals| - x;
            && 1 <= depth <= |f| && f[|f| - depth] == locals[x]
            && f[|f| - depth := v] == Slots(below, locals[x := v], outer, stack)
  {
  }

  lemma FrameMove(below: seq<Word>, locals: seq<Word>, outer: seq<Word>, stack: seq<Word>, n: nat)
    requires n <= |stack|
    ensures Slots(below, locals, outer, stack) == Slots(below, locals, outer + S.Under(stack, n), S.Take(stack, n))
  {
    assert stack == S.Under(stack, n) + S.Take(stack, n);
  }

  lemma FrameCall(below: seq<Word>, locals: seq<Word>, outer: seq<Word>, stack: seq<Word>, n: nat, vals: seq<Word>)
    requires n <= |stack|
    ensures var below' := Slots(below, locals, outer, S.Under(stack, n));
            && Slots(below, locals, outer, stack) == below' + S.Take(stack, n)
            && below' + vals == Slots(below, locals, outer, S.Under(stack, n) + vals)
  {
    assert stack == S.Under(stack, n) + S.Take(stack, n);
  }

  /** What a branch leaves: the operands below its label, then the label's values. */
  lemma FrameDrop(below: seq<Word>, locals: seq<Word>, outer: seq<Word>, stack: seq<Word>, limit: nat, keep: nat)
    requires limit <= |outer| && keep <= |stack|
    ensures var f := Slots(below, locals, outer, stack);
            var drop := |outer| + |stack| - limit - keep;
            drop + keep <= |f| && Intended(f, drop, keep) == Slots(below, locals, outer[..limit], S.Take(stack, keep))
  {
    var f := Slots(below, locals, outer, stack);
    var drop := |outer| + |stack| - limit - keep;
    assert f[..|f| - drop - keep] == below + locals + outer[..limit];
    assert f[|f| - keep..] == S.Take(stack, keep);
  }

  lemma FrameReturn(below: seq<Word>, locals: seq<Word>, outer: seq<Word>, stack: seq<Word>, keep: nat)
    requires keep <= |stack|
    ensures var f := Slots(below, locals, outer, stack);
            var drop := |outer| + |stack| + |locals| - keep;
            drop + keep <= |f| && Intended(f, drop, keep) == below + S.Take(stack, keep)
  {
    var f := Slots(below, locals, outer, stack);
    var drop := |outer| + |stack| + |locals| - keep;
    assert f[..|f| - drop - keep] == below;
    assert f[|f| - keep..] == S.Take(stack, keep);
  }
}
