/** The written C and the structured semantics agree on results, traps and divergence - and so does
    the interpreter's bytecode. */
module CTheorems {
  import opened Syntax
  import opened TypeChecker
  import opened Elaborate
  import opened CMachine
  import opened CLowering
  import opened CSimulation
  import opened CCorrectness
  import opened CPreservation
  import B = Compiler
  import I = Simulation
  import M = Machine
  import Bytecode
  import S = Semantics

  /** What a caller has to supply: values of the parameters' types. */
  predicate Admits(p: CProg, f: nat, args: seq<Word>, globals: seq<Word>) {
    && f < |p.m.funcs| == |p.c.funcs|
    && FitsAll(p.m.funcs[f].sig.params, args)
    && FitsAll(GlobalTypes(p.m.globals), globals)
  }

  function CStart(p: CProg, f: nat, args: seq<Word>, globals: seq<Word>): Config
    requires Admits(p, f, args, globals)
  {
    CalleeStart(p, f, args, globals, [])
  }

  ghost predicate Finishes(p: CProg, s: Config, vals: seq<Word>, gs: seq<Word>) {
    exists n: nat :: Run(p.c, p.depth, s, n).status == Finished(vals) && Run(p.c, p.depth, s, n).globals == gs
  }

  lemma FinishesAt(p: CProg, f: nat, s: Config, vals: seq<Word>, gs: seq<Word>)
    requires Written(p) && f < |p.m.funcs| && s.callers == [] && CallReturned(p, f, s, vals, gs)
    ensures Finishes(p, s, vals, gs) && |vals| == |p.m.funcs[f].sig.results|
  {
    hide Written, EnvOk, LowerModule, Run;
    var results := p.m.funcs[f].sig.results;
    var vars, ls :| EnvOk(CtxOf(p.m, f), results, vars, S.State(ls, vals, gs))
      && Reaches(p, s, Config(Running, f, Stop, vars, ls, gs, s.callers), 0);
    var t := Config(Running, f, Stop, vars, ls, gs, []);
    WrittenFunc(p, f);
    LoweredSig(p, f);
    EnvTypes(CtxOf(p.m, f), results, vars, S.State(ls, vals, gs));
    if results != [] {
      EnvRead(CtxOf(p.m, f), results, t, S.State(ls, vals, gs), 0);
      assert vals == [vals[0]];
    } else {
      assert vals == [];
    }
    ReachesStep(p, t);
    ReachesTrans(p, s, t, Step(p.c, p.depth, t), 0, 1);
  }

  lemma RunStays(p: CProg, s: Config, n: nat, k: nat)
    requires Run(p.c, p.depth, s, n).status != Running && n <= k
    ensures Run(p.c, p.depth, s, k) == Run(p.c, p.depth, s, n)
  {
    RunAdd(p.c, p.depth, s, n, k - n);
    RunHalted(p.c, p.depth, Run(p.c, p.depth, s, n), k - n);
  }

  lemma RunUnique(p: CProg, s: Config, n: nat, k: nat)
    requires Run(p.c, p.depth, s, n).status != Running && Run(p.c, p.depth, s, k).status != Running
    ensures Run(p.c, p.depth, s, k) == Run(p.c, p.depth, s, n)
  {
    if n <= k {
      RunStays(p, s, n, k);
    } else {
      RunStays(p, s, k, n);
    }
  }

  /** From the semantics to the C: unless calls nest too deeply, whatever the structured semantics does
      within some fuel the written C does. */
  lemma WrittenForward(p: CProg, f: nat, args: seq<Word>, globals: seq<Word>, fuel: nat)
    requires Written(p) && Admits(p, f, args, globals)
    ensures var s := CStart(p, f, args, globals);
            Exhausts(p, s) ||
            match S.CallFunc(p.m, f, args, globals, fuel) {
              case Returned(vals, gs) => |vals| == |p.m.funcs[f].sig.results| && Finishes(p, s, vals, gs)
              case Trapped(kind) => Traps(p, s, kind)
              case Timeout => Lasts(p, s, fuel)
              case _ => false
            }
  {
    hide Written, Exhausts, Finishes, Traps, Lasts, S.CallFunc, FitsAll, CallReturned;
    SimFunc(p, f, args, globals, [], fuel);
    var o := S.CallFunc(p.m, f, args, globals, fuel);
    if !Exhausts(p, CStart(p, f, args, globals)) && o.Returned? {
      FinishesAt(p, f, CStart(p, f, args, globals), o.vals, o.globals);
    }
  }

  /** From the C to the semantics: a run that stops stops as the structured semantics says, and never
      reads a variable that was not assigned, jumps to a label that is not there, or does anything else
      undefined. */
  lemma WrittenBackward(p: CProg, f: nat, args: seq<Word>, globals: seq<Word>, n: nat)
    requires Written(p) && Admits(p, f, args, globals)
    ensures var r := Run(p.c, p.depth, CStart(p, f, args, globals), n);
            match r.status {
              case Finished(vals) => S.CallFunc(p.m, f, args, globals, n + 1) == S.Returned(vals, r.globals)
              case Trapped(kind) => S.CallFunc(p.m, f, args, globals, n + 1) == S.Trapped(kind)
              case Fault => false
              case _ => true
            }
  {
    hide Written, S.CallFunc, Run, FitsAll;
    var s := CStart(p, f, args, globals);
    var r := Run(p.c, p.depth, s, n);
    if r.status != Running {
      WrittenForward(p, f, args, globals, n + 1);
      if Exhausts(p, s) {
        var k: nat :| Run(p.c, p.depth, s, k).status == Exhausted;
        RunUnique(p, s, n, k);
      } else {
        match S.CallFunc(p.m, f, args, globals, n + 1)
        case Returned(vals, gs) =>
          var k: nat :| Run(p.c, p.depth, s, k).status == Finished(vals) && Run(p.c, p.depth, s, k).globals == gs;
          RunUnique(p, s, n, k);
        case Trapped(kind) =>
          var k: nat :| Run(p.c, p.depth, s, k).status == Trapped(kind);
          RunUnique(p, s, n, k);
        case Timeout =>
          var k: nat :| k >= n + 1 && Run(p.c, p.depth, s, k).status == Running;
          RunStays(p, s, n, k);
        case _ =>
      }
    }
  }

  ghost predicate RunsForever(p: CProg, s: Config) {
    forall n: nat :: Run(p.c, p.depth, s, n).status == Running
  }

  lemma NeverHalts(p: CProg, s: Config)
    requires RunsForever(p, s)
    ensures forall vals, gs :: !Finishes(p, s, vals, gs)
    ensures forall kind :: !Traps(p, s, kind)
  {
    hide Run;
  }

  /** Divergence is preserved both ways. */
  lemma WrittenDivergence(p: CProg, f: nat, args: seq<Word>, globals: seq<Word>)
    requires Written(p) && Admits(p, f, args, globals)
    ensures var s := CStart(p, f, args, globals);
            !Exhausts(p, s) ==> (RunsForever(p, s) <==> B.Diverges(p.m, f, args, globals))
  {
    hide Written, S.CallFunc, Run, Finishes, Traps, Lasts, FitsAll;
    var s := CStart(p, f, args, globals);
    if !Exhausts(p, s) && RunsForever(p, s) {
      forall fuel: nat ensures S.CallFunc(p.m, f, args, globals, fuel) == S.Timeout {
        WrittenForward(p, f, args, globals, fuel);
        NeverHalts(p, s);
      }
    }
    if !Exhausts(p, s) && B.Diverges(p.m, f, args, globals) {
      forall n: nat ensures Run(p.c, p.depth, s, n).status == Running {
        assert S.CallFunc(p.m, f, args, globals, n + 1) == S.Timeout;
        WrittenBackward(p, f, args, globals, n);
        assert Run(p.c, p.depth, s, n).status != Exhausted;
      }
    }
  }

  /** The two back ends agree: when the interpreter's bytecode finishes with some results and globals, or
      traps, so does the written C, unless its calls nest too deeply. */
  lemma BackEndsAgree(p: CProg, cs: seq<FuncCode>, base: seq<Bytecode.Byte>, lim: M.Limits, f: nat, args: seq<Word>,
                      globals: seq<Word>, n: nat)
    requires Written(p) && Admits(p, f, args, globals)
    requires B.Compiled(p.m, cs, base, lim) && B.Callable(p.m, lim, f, args, globals)
    ensures var i := B.Linked(p.m, cs, base, lim);
            var r := M.Run(i.code, lim, B.Start(i, f, args, globals), n);
            var s := CStart(p, f, args, globals);
            || Exhausts(p, s)
            || match r.status {
                 case Finished => Finishes(p, s, r.stack, r.globals)
                 case Trapped(kind) => Traps(p, s, kind)
                 case _ => true
               }
  {
    hide Written, S.CallFunc, Exhausts, Finishes, Traps, Lasts, FitsAll, M.Run, B.Compiled, B.Linked;
    B.CompiledBackward(p.m, cs, base, lim, f, args, globals, n);
    WrittenForward(p, f, args, globals, n + 1);
  }
}
