/** The running interpreter: `Thread` updates its two stacks in place, and every loop and every
    instruction is proved to do what `Machine` says. */
module Interpreter {
  import opened Syntax
  import opened Bytecode
  import opened Machine
  import Semantics

  class Thread {
    const istream: seq<Byte>
    const valueStack: array<Word>
    const callStack: array<nat>
    const globals: array<Word>
    var valueStackTop: nat
    var callStackTop: nat
    var pc: nat

    ghost predicate Valid()
      reads this
    {
      && valueStackTop <= valueStack.Length
      && callStackTop <= callStack.Length
      && valueStack != globals
    }

    ghost function Lim(): Limits {
      Limits(valueStack.Length, callStack.Length)
    }

    /** The machine configuration that the fields stand for, `result` being the loop's result. */
    ghost function Now(result: Status): Config
      requires Valid()
      reads this, valueStack, callStack, globals
    {
      Config(result, pc, valueStack[..valueStackTop], callStack[..callStackTop], globals[..])
    }

    constructor (env: seq<Byte>, globalValues: array<Word>, lim: Limits)
      ensures Valid() && fresh(valueStack) && fresh(callStack) && fresh(this)
      ensures istream == env && globals == globalValues && Lim() == lim
      ensures valueStackTop == 0 && callStackTop == 0
    {
      istream, globals := env, globalValues;
      valueStack, callStack := new Word[lim.values](_ => 0), new nat[lim.calls](_ => 0);
      valueStackTop, callStackTop, pc := 0, 0, 0;
    }

    method Reset()
      modifies this
      ensures pc == 0 && valueStackTop == 0 && callStackTop == 0
      ensures Valid() == (valueStack != globals)
    {
      pc, valueStackTop, callStackTop := 0, 0, 0;
    }

    method Push(v: Word) returns (result: Status)
      requires Valid()
      modifies this`valueStackTop, valueStack
      ensures Valid() && globals[..] == old(globals[..]) && callStack[..] == old(callStack[..])
      ensures result == Machine.Push(Lim(), old(Now(Running)), v).status
      ensures result == Running ==> Now(Running) == Machine.Push(Lim(), old(Now(Running)), v)
    {
      if valueStackTop >= valueStack.Length {
        return ValueStackExhausted;
      }
      valueStack[valueStackTop] := v;
      valueStackTop := valueStackTop + 1;
      return Running;
    }

    method Pop() returns (v: Word)
      requires Valid() && 0 < valueStackTop
      modifies this`valueStackTop
      ensures Valid() && valueStackTop == old(valueStackTop) - 1
      ensures v == Pick(old(Now(Running)), 1) && Now(Running) == Machine.Pop(old(Now(Running)), 1)
    {
      valueStackTop := valueStackTop - 1;
      v := valueStack[valueStackTop];
    }

    method SetPick(depth: nat, v: Word)
      requires Valid() && 1 <= depth <= valueStackTop
      modifies valueStack
      ensures Now(Running) == Machine.SetPick(old(Now(Running)), depth, v)
    {
      valueStack[valueStackTop - depth] := v;
    }

    /** Slot by slot from the top down, in place. */
    method DropKeep(drop: nat, keep: nat)
      requires Valid() && drop + keep <= valueStackTop
      modifies this`valueStackTop, valueStack
      ensures Valid() && valueStackTop == old(valueStackTop) - drop
      ensures Now(Running) == old(Now(Running)).(stack := Machine.DropKeep(old(Now(Running)).stack, drop, keep))
    {
      ghost var start := valueStack[..valueStackTop];
      for i := 0 to keep
        invariant Valid() && valueStackTop == old(valueStackTop)
        invariant globals[..] == old(globals[..]) && callStack[..] == old(callStack[..])
        invariant CopyDown(valueStack[..valueStackTop], drop, keep, i) == CopyDown(start, drop, keep, 0)
      {
        ghost var before := valueStack[..valueStackTop];
        valueStack[valueStackTop - drop - i - 1] := valueStack[valueStackTop - i - 1];
        assert valueStack[..valueStackTop] == before[|before| - drop - i - 1 := before[|before| - i - 1]];
      }
      valueStackTop := valueStackTop - drop;
      assert valueStack[..valueStackTop] == valueStack[..old(valueStackTop)][..valueStackTop];
    }

    method PushCall(ret: nat) returns (result: Status)
      requires Valid()
      modifies this`callStackTop, callStack
      ensures Valid() && globals[..] == old(globals[..]) && valueStack[..] == old(valueStack[..])
      ensures result == if old(callStackTop) >= callStack.Length then CallStackExhausted else Running
      ensures result == Running ==> callStack[..callStackTop] == old(callStack[..callStackTop]) + [ret]
    {
      if callStackTop >= callStack.Length {
        return CallStackExhausted;
      }
      callStack[callStackTop] := ret;
      callStackTop := callStackTop + 1;
      return Running;
    }

    method PopCall() returns (ret: nat)
      requires Valid() && 0 < callStackTop
      modifies this`callStackTop
      ensures Valid() && callStackTop == old(callStackTop) - 1
      ensures ret == callStack[callStackTop]
    {
      callStackTop := callStackTop - 1;
      ret := callStack[callStackTop];
    }

    // ----- One instruction -------------------------------------------------------------------------

    /** The fields stand for `t`. Once a trap is reported the stacks no longer matter, and the value
        stack's top may even be out of bounds; the globals stay as they are. */
    ghost predicate Agrees(t: Config, result: Status)
      reads this, valueStack, callStack, globals
    {
      && result == t.status
      && globals[..] == t.globals
      && (result == Running ==> Valid() && Now(Running) == t)
      && (result == Finished ==> Valid() && Now(Finished).(pc := 0) == t)
    }

    method ExecuteOperands(i: Instr) returns (result: Status)
      requires Valid() && Machine.Execute(istream, Lim(), Now(Running), i).status != Fault
      requires i.IConst32? || i.IConst64? || i.IDrop? || i.ISelect? || i.IBin? || i.INop?
      modifies this, valueStack, callStack
      ensures Agrees(old(Machine.Execute(istream, Lim(), Now(Running), i)), result)
    {
      result := Running;
      match i
      case IConst32(_, v) => result := Push(v % TWO_32);
      case IConst64(_, lo, hi) => result := Push(lo % TWO_32 + TWO_32 * (hi % TWO_32));
      case IDrop =>
        var _ := Pop();
      case ISelect =>
        var cond := Pop();
        var false_ := Pop();
        var true_ := Pop();
        result := Push(if cond % TWO_32 != 0 then true_ else false_);
      case IBin(op) =>
        var rhs := Pop();
        var lhs := Pop();
        var r := ApplyBin(op, lhs, rhs);
        if r.None? {
          return Trapped(Semantics.DivideByZero);
        }
        result := Push(r.value);
      case _ =>
    }

    method ExecuteVariable(i: Instr) returns (result: Status)
      requires Valid() && Machine.Execute(istream, Lim(), Now(Running), i).status != Fault
      requires i.IGetLocal? || i.ISetLocal? || i.ITeeLocal? || i.IGetGlobal? || i.ISetGlobal?
      modifies this, valueStack, callStack, globals
      ensures Agrees(old(Machine.Execute(istream, Lim(), Now(Running), i)), result)
    {
      result := Running;
      match i
      case IGetLocal(d) => result := Push(valueStack[valueStackTop - d]);
      case ISetLocal(d) =>
        var value := Pop();
        SetPick(d, value);
      case ITeeLocal(d) => SetPick(d, valueStack[valueStackTop - 1]);
      case IGetGlobal(g) => result := Push(globals[g]);
      case ISetGlobal(g) =>
        var value := Pop();
        globals[g] := value;
      case _ =>
    }

    method ExecuteBranch(i: Instr) returns (result: Status)
      requires Valid() && Machine.Execute(istream, Lim(), Now(Running), i).status != Fault
      requires i.IBr? || i.IBrIf? || i.IBrUnless? || i.IBrTable? || i.IDropKeep?
      modifies this, valueStack, callStack
      ensures Agrees(old(Machine.Execute(istream, Lim(), Now(Running), i)), result)
    {
      hide Machine.DropKeep, ReadU32;
      result := Running;
      match i
      case IBr(t) => pc := t;
      case IBrIf(t) =>
        var cond := Pop();
        if cond % TWO_32 != 0 {
          pc := t;
        }
      case IBrUnless(t) =>
        var cond := Pop();
        if cond % TWO_32 == 0 {
          pc := t;
        }
      case IBrTable(count, table) =>
        var key := Pop();
        var entry := table + 12 * (if key % TWO_32 >= count then count else key % TWO_32);
        var drop, keep := ReadU32(istream, entry + 4), ReadU32(istream, entry + 8);
        DropKeep(drop, keep);
        pc := ReadU32(istream, entry);
      case IDropKeep(drop, keep) => DropKeep(drop, keep);
      case _ =>
    }

    method ExecuteFrame(i: Instr) returns (result: Status)
      requires Valid() && Machine.Execute(istream, Lim(), Now(Running), i).status != Fault
      requires i.ICall? || i.IReturn? || i.IAlloca? || i.IUnreachable?
      modifies this, valueStack, callStack
      ensures Agrees(old(Machine.Execute(istream, Lim(), Now(Running), i)), result)
    {
      result := Running;
      match i
      case ICall(t) =>
        result := PushCall(pc);
        if result == Running {
          pc := t;
        }
      case IReturn =>
        if callStackTop == 0 {
          return Finished;
        }
        var ret := PopCall();
        pc := ret;
      case IAlloca(count) =>
        var top := valueStackTop;
        valueStackTop := valueStackTop + count;
        if valueStackTop >= valueStack.Length {
          return ValueStackExhausted;
        }
        forall k | top <= k < valueStackTop {
          valueStack[k] := 0;
        }
      case _ => result := Trapped(Semantics.UnreachableTrap);
    }

    method Execute(i: Instr) returns (result: Status)
      requires Valid() && Machine.Execute(istream, Lim(), Now(Running), i).status != Fault
      modifies this, valueStack, callStack, globals
      ensures Agrees(old(Machine.Execute(istream, Lim(), Now(Running), i)), result)
    {
      match i
      case IConst32(_, _) => result := ExecuteOperands(i);
      case IConst64(_, _, _) => result := ExecuteOperands(i);
      case IDrop => result := ExecuteOperands(i);
      case ISelect => result := ExecuteOperands(i);
      case IBin(_) => result := ExecuteOperands(i);
      case INop => result := ExecuteOperands(i);
      case IGetLocal(_) => result := ExecuteVariable(i);
      case ISetLocal(_) => result := ExecuteVariable(i);
      case ITeeLocal(_) => result := ExecuteVariable(i);
      case IGetGlobal(_) => result := ExecuteVariable(i);
      case ISetGlobal(_) => result := ExecuteVariable(i);
      case IBr(_) => result := ExecuteBranch(i);
      case IBrIf(_) => result := ExecuteBranch(i);
      case IBrUnless(_) => result := ExecuteBranch(i);
      case IBrTable(_, _) => result := ExecuteBranch(i);
      case IDropKeep(_, _) => result := ExecuteBranch(i);
      case ICall(_) => result := ExecuteFrame(i);
      case IReturn => result := ExecuteFrame(i);
      case IAlloca(_) => result := ExecuteFrame(i);
      case IUnreachable => result := ExecuteFrame(i);
      case IData(_) => assert false;
    }

    // ----- Runs ------------------------------------------------------------------------------------------

    /** `Thread::Run`: up to `count` instructions. */
    method Run(count: nat) returns (result: Status)
      requires Valid()
      requires Machine.Run(istream, Lim(), Now(Running), count).status != Fault
      modifies this, valueStack, callStack, globals
      ensures Agrees(old(Machine.Run(istream, Lim(), Now(Running), count)), result)
    {
      hide Machine.Execute, InstrSize, Fetch;
      ghost var start := Now(Running);
      for k := 0 to count
        invariant Valid() && Machine.Run(istream, Lim(), start, count)
                  == Machine.Run(istream, Lim(), Now(Running), count - k)
      {
        ghost var s := Now(Running);
        ghost var t := Step(istream, Lim(), s);
        NoFault(istream, Lim(), s, count - k);
        var i := Fetch(istream, pc).value;
        pc := pc + InstrSize(i);
        assert Now(Running) == s.(pc := s.pc + InstrSize(i));
        result := Execute(i);
        if result != Running {
          RunHalted(istream, Lim(), t, count - k - 1);
          return;
        }
      }
      result := Running;
    }
  }

  /** A run without a fault has none on its first step. */
  lemma NoFault(code: seq<Byte>, lim: Limits, s: Config, n: nat)
    requires s.status == Running && 0 < n && Machine.Run(code, lim, s, n).status != Fault
    ensures Fetch(code, s.pc).Some? && Step(code, lim, s).status != Fault
    ensures Machine.Run(code, lim, s, n) == Machine.Run(code, lim, Step(code, lim, s), n - 1)
    ensures Step(code, lim, s) == Machine.Execute(code, lim, s.(pc := s.pc + InstrSize(Fetch(code, s.pc).value)),
                                                  Fetch(code, s.pc).value)
  {
    hide Machine.Execute, InstrSize, Fetch;
    if Step(code, lim, s).status == Fault {
      RunHalted(code, lim, Step(code, lim, s), n - 1);
    }
  }
}
