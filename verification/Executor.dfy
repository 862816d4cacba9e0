/** From a module to the results of a call: the compiler and the interpreter put together. */
module Execution {
  import opened Syntax
  import opened Bytecode
  import opened Machine
  import opened Elaborate
  import opened Linking
  import opened Layout
  import opened Simulation
  import opened Correctness
  import opened Compiler
  import opened Heights
  import opened Interpreter
  import opened InterpReader
  import S = Semantics

  datatype TypedValue = TypedValue(ty: Type, value: Word)

  /** `Stopped` carries the traps of the machine. */
  datatype Result = Ok | ArgumentTypeMismatch | Stopped(status: Status)

  function Values(args: seq<TypedValue>): (r: seq<Word>)
    ensures |r| == |args| && forall i :: 0 <= i < |r| ==> r[i] == args[i].value
  {
    seq(|args|, i requires 0 <= i < |args| => args[i].value)
  }

  function Typed(types: seq<Type>, values: seq<Word>): (r: seq<TypedValue>)
    requires |types| == |values|
    ensures |r| == |types| && forall i :: 0 <= i < |r| ==> r[i] == TypedValue(types[i], values[i])
  {
    seq(|types|, i requires 0 <= i < |types| => TypedValue(types[i], values[i]))
  }

  /** The first `n` arguments have the parameters' types. */
  predicate TypesAgree(params: seq<Type>, args: seq<TypedValue>, n: nat)
    requires n <= |params| == |args|
  {
    forall i :: 0 <= i < n ==> params[i] == args[i].ty
  }

  /** What `PushArgs` answers: arguments are checked and pushed one at a time, so a mismatch behind the
      one that no longer fits is not seen. */
  function ArgsResult(params: seq<Type>, args: seq<TypedValue>, capacity: nat): Result {
    if |params| != |args| then ArgumentTypeMismatch
    else if |args| <= capacity then (if TypesAgree(params, args, |args|) then Ok else ArgumentTypeMismatch)
    else if TypesAgree(params, args, capacity + 1) then Stopped(ValueStackExhausted)
    else ArgumentTypeMismatch
  }

  /** The answer of a call against the outcome of the structured semantics: `gs` are the globals
      afterwards. Only an exhausted stack is the machine's own affair. */
  ghost predicate Explains(o: S.Outcome, results: seq<Type>, result: Result, values: seq<TypedValue>, gs: seq<Word>) {
    match result
    case Ok => exists vals :: |vals| == |results| && values == Typed(results, vals) && o == S.Returned(vals, gs)
    case ArgumentTypeMismatch => false
    case Stopped(status) =>
      && values == []
      && (status == ValueStackExhausted || status == CallStackExhausted
          || (status.Trapped? && o == S.Trapped(status.kind)))
  }

  class Executor {
    const thread: Thread
    const funcs: seq<Func>
    const offsets: seq<nat>

    ghost predicate Ready()
      reads thread
    {
      && thread.Valid()
      && thread.valueStackTop == 0
      && thread.callStackTop == 0
      && |funcs| == |offsets|
    }

    constructor (fs: seq<Func>, offs: seq<nat>, istream: seq<Byte>, globals: array<Word>, lim: Limits)
      requires |fs| == |offs|
      ensures Ready() && funcs == fs && offsets == offs
      ensures thread.istream == istream && thread.globals == globals && thread.Lim() == lim
      ensures fresh(thread) && fresh(thread.valueStack) && fresh(thread.callStack)
    {
      funcs, offsets := fs, offs;
      thread := new Thread(istream, globals, lim);
    }

    method PushArgs(params: seq<Type>, args: seq<TypedValue>) returns (result: Result)
      requires Ready()
      modifies thread, thread.valueStack
      ensures thread.Valid() && thread.callStackTop == 0 && thread.globals[..] == old(thread.globals[..])
      ensures result == ArgsResult(params, args, thread.valueStack.Length)
      ensures result == Ok ==> thread.valueStack[..thread.valueStackTop] == Values(args)
    {
      if |params| != |args| {
        return ArgumentTypeMismatch;
      }
      for i := 0 to |args|
        invariant thread.Valid() && thread.callStackTop == 0 && thread.globals[..] == old(thread.globals[..])
        invariant thread.valueStackTop == i <= thread.valueStack.Length && TypesAgree(params, args, i)
        invariant thread.valueStack[..i] == Values(args)[..i]
      {
        if params[i] != args[i].ty {
          return ArgumentTypeMismatch;
        }
        ghost var before := thread.Now(Running).stack;
        var pushed := thread.Push(args[i].value);
        if pushed != Running {
          return Stopped(pushed);
        }
        assert thread.Now(Running).stack == before + [args[i].value];
        assert |thread.Now(Running).stack| == thread.valueStackTop;
      }
      return Ok;
    }

    /** A thousand instructions at a time until the thread stops. `steps` bounds the run. */
    method RunDefinedFunction(offset: nat, ghost steps: nat) returns (result: Status)
      requires thread.Valid()
      requires var s := thread.Now(Running).(pc := offset);
               && Machine.Run(thread.istream, thread.Lim(), s, steps).status != Running
               && forall n: nat :: Machine.Run(thread.istream, thread.Lim(), s, n).status != Fault
      modifies thread, thread.valueStack, thread.callStack, thread.globals
      ensures thread.valueStack != thread.globals
      ensures thread.Agrees(old(Machine.Run(thread.istream, thread.Lim(), thread.Now(Running).(pc := offset), steps)),
                            result)
    {
      hide Machine.Run;
      ghost var s := thread.Now(Running).(pc := offset);
      ghost var code, lim := thread.istream, thread.Lim();
      thread.pc := offset;
      ghost var taken := 0;
      assert Machine.Run(code, lim, s, 0) == s by {
        RunNone(code, lim, s);
      }
      result := Running;
      while result == Running
        invariant thread.Valid() || result != Running
        invariant thread.valueStack != thread.globals
        invariant result == Running ==> taken <= steps && thread.Now(Running) == Machine.Run(code, lim, s, taken)
        invariant result != Running ==> thread.Agrees(Machine.Run(code, lim, s, steps), result)
        decreases if result == Running then 1 + steps - taken else 0
      {
        RunAdd(code, lim, s, taken, 1000);
        result := thread.Run(1000);
        taken := taken + 1000;
        if result == Running {
          if steps < taken {
            RunStays(code, lim, s, steps, taken);
          }
        } else {
          RunUnique(code, lim, s, taken, steps);
        }
      }
    }

    /** `Executor::RunFunction` on a compiled module: whatever it answers, apart from an exhausted stack,
        is what the structured semantics says. */
    method RunFunction(f: nat, args: seq<TypedValue>, ghost m: Module, ghost cs: seq<FuncCode>, ghost base: seq<Byte>,
                       ghost steps: nat)
      returns (result: Result, values: seq<TypedValue>)
      requires Ready() && Compiled(m, cs, base, thread.Lim()) && f < |funcs|
      requires var p := Linked(m, cs, base, thread.Lim());
               && funcs == m.funcs && offsets == p.offsets && thread.istream == p.code
               && thread.globals.Length == |m.globals|
               && (|args| == |funcs[f].sig.params| ==>
                     Machine.Run(p.code, p.lim, Start(p, f, Values(args), thread.globals[..]), steps).status != Running)
      modifies thread, thread.valueStack, thread.callStack, thread.globals
      ensures Ready()
      ensures ArgsResult(funcs[f].sig.params, args, thread.valueStack.Length) != Ok ==>
                result == ArgsResult(funcs[f].sig.params, args, thread.valueStack.Length)
                && values == [] && thread.globals[..] == old(thread.globals[..])
      ensures ArgsResult(funcs[f].sig.params, args, thread.valueStack.Length) == Ok ==>
                Explains(S.CallFunc(m, f, Values(args), old(thread.globals[..]), steps + 1), funcs[f].sig.results,
                         result, values, thread.globals[..])
    {
      hide Compiled, Machine.Run, Linked, S.CallFunc, FuncOffsets;
      values := [];
      ghost var p := Linked(m, cs, base, thread.Lim());
      LinkedShape(m, cs, base, thread.Lim());
      ghost var globals := thread.globals[..];
      result := PushArgs(funcs[f].sig.params, args);
      if result == Ok {
        ghost var s := Start(p, f, Values(args), globals);
        assert thread.Now(Running).(pc := offsets[f]) == s;
        forall n: nat ensures Machine.Run(p.code, p.lim, s, n).status != Fault {
          CompiledBackward(m, cs, base, thread.Lim(), f, Values(args), globals, n);
        }
        var status := RunDefinedFunction(offsets[f], steps);
        CompiledBackward(m, cs, base, thread.Lim(), f, Values(args), globals, steps);
        if status == Finished {
          ghost var vals := thread.valueStack[..thread.valueStackTop];
          values := CopyResults(funcs[f].sig.results);
          assert values == Typed(funcs[f].sig.results, vals);
        } else {
          result := Stopped(status);
        }
      }
      thread.Reset();
    }

    /** The results are everything that is left on the value stack. */
    method CopyResults(types: seq<Type>) returns (values: seq<TypedValue>)
      requires thread.Valid() && |types| == thread.valueStackTop
      ensures values == Typed(types, thread.valueStack[..thread.valueStackTop])
    {
      values := [];
      for i := 0 to |types|
        invariant |values| == i
        invariant forall k :: 0 <= k < i ==> values[k] == TypedValue(types[k], thread.valueStack[k])
      {
        values := values + [TypedValue(types[i], thread.valueStack[i])];
      }
    }
  }

  lemma RunNone(code: seq<Byte>, lim: Limits, s: Config)
    ensures Machine.Run(code, lim, s, 0) == s
  {
  }

  /** Sizes that the stream's 32-bit operands can express. */
  predicate WithinLimits(m: Module, cs: seq<FuncCode>, lim: Limits) {
    |Link(cs, 0)| < INVALID && lim.values < TWO_32 && |m.globals| < TWO_32
  }

  /** `wasm-interp` on a WebAssembly 1.0 module: read, compile, call. The module is rejected exactly when
      it does not validate; an accepted one answers as the structured semantics does. `steps` bounds
      the run. */
  method ReadAndRun(m: Module, globals: array<Word>, lim: Limits, f: nat, args: seq<TypedValue>, ghost steps: nat)
    returns (ok: bool, result: Result, values: seq<TypedValue>)
    requires Narrow(m) && f < |m.funcs| && globals.Length == |m.globals|
    requires var r := ElabFuncs(m, |m.funcs|);
             r.Some? ==>
             && WithinLimits(m, r.value, lim)
             && var p := Linked(m, r.value, [], lim);
                |args| == |m.funcs[f].sig.params| ==>
                  Machine.Run(p.code, p.lim, Start(p, f, Values(args), globals[..]), steps).status != Running
    modifies globals
    ensures ok <==> ElabFuncs(m, |m.funcs|).Some?
    ensures ok ==>
              var admitted := ArgsResult(m.funcs[f].sig.params, args, lim.values);
              if admitted != Ok then result == admitted && values == [] && globals[..] == old(globals[..])
              else Explains(S.CallFunc(m, f, Values(args), old(globals[..]), steps + 1), m.funcs[f].sig.results,
                            result, values, globals[..])
  {
    hide Machine.Run, S.CallFunc, ElabFuncs, Link, FuncOffsets, Explains, Progress, Narrow, Supported;
    result, values := Ok, [];
    var reader := new BinaryReaderInterp(m, []);
    ok := reader.ReadModule();
    if ok {
      ghost var cs := ElabFuncs(m, |m.funcs|).value;
      NarrowSupported(m, cs);
      assert [] + Link(cs, 0) == Link(cs, 0);
      var executor := new Executor(m.funcs, reader.funcOffsets, reader.istream, globals, lim);
      result, values := executor.RunFunction(f, args, m, cs, [], steps);
    }
  }
}
