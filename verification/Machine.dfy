/** The interpreter's machine: a value stack shared by all frames, a call stack of return offsets,
    and the module's globals, driven by the byte stream. This is the specification that
    `Interpreter.Thread` refines. */
module Machine {
  import opened Syntax
  import opened Bytecode
  import Semantics

  /** `Fault` stands for what the C++ code leaves undefined: popping an empty stack, picking
      outside the live stack, running off the stream or into data. */
  datatype Status =
    | Running
    | Finished
    | Trapped(kind: Semantics.TrapKind)
    | ValueStackExhausted
    | CallStackExhausted
    | Fault

  datatype Config = Config(status: Status, pc: nat, stack: seq<Word>, calls: seq<nat>, globals: seq<Word>) {
    predicate Exhausted() {
      status == ValueStackExhausted || status == CallStackExhausted
    }
  }

  datatype Limits = Limits(values: nat, calls: nat)

  /** A program counter means nothing once the machine has stopped. */
  function Halt(s: Config, status: Status): Config {
    s.(status := status, pc := 0)
  }

  function Push(lim: Limits, s: Config, v: Word): Config {
    if |s.stack| >= lim.values then Halt(s, ValueStackExhausted) else s.(stack := s.stack + [v])
  }

  function Pop(s: Config, n: nat): Config
    requires n <= |s.stack|
  {
    s.(stack := s.stack[..|s.stack| - n])
  }

  /** `Pick(depth)`: the slot `depth` below the top; the top itself is `Pick(1)`. */
  predicate InStack(s: Config, depth: int) {
    1 <= depth <= |s.stack|
  }

  function Pick(s: Config, depth: int): Word
    requires InStack(s, depth)
  {
    s.stack[|s.stack| - depth]
  }

  function SetPick(s: Config, depth: int, v: Word): Config
    requires InStack(s, depth)
  {
    s.(stack := s.stack[|s.stack| - depth := v])
  }

  /** The copy loop of `Thread::DropKeep` from iteration `i` on: slot by slot from the top down,
      reading what earlier iterations have already written. */
  function CopyDown(st: seq<Word>, drop: nat, keep: nat, i: nat): (r: seq<Word>)
    requires i <= keep && drop + keep <= |st|
    ensures |r| == |st|
    decreases keep - i
  {
    if i == keep then st
    else CopyDown(st[|st| - drop - i - 1 := st[|st| - i - 1]], drop, keep, i + 1)
  }

  function DropKeep(st: seq<Word>, drop: nat, keep: nat): (r: seq<Word>)
    requires drop + keep <= |st|
    ensures |r| == |st| - drop
  {
    CopyDown(st, drop, keep, 0)[..|st| - drop]
  }

  function Jump(s: Config, target: int): Config {
    if target < 0 then Halt(s, Fault) else s.(pc := target)
  }

  function StepBrTable(code: seq<Byte>, s: Config, count: nat, table: nat): Config {
    if |s.stack| < 1 then Halt(s, Fault)
    else
      var key := Pick(s, 1) % TWO_32;
      var entry := table + 12 * (if key >= count then count else key);
      var s' := Pop(s, 1);
      if entry + 12 > |code| then Halt(s, Fault)
      else
        var drop, keep := ReadU32(code, entry + 4), ReadU32(code, entry + 8);
        if drop + keep > |s'.stack| then Halt(s, Fault)
        else Jump(s'.(stack := DropKeep(s'.stack, drop, keep)), ReadU32(code, entry))
  }

  /** One turn of the loop in `Thread::Run`; `s.pc` is already past the instruction. */
  function Execute(code: seq<Byte>, lim: Limits, s: Config, i: Instr): Config {
    var n := |s.stack|;
    match i
    case IUnreachable => Halt(s, Trapped(Semantics.UnreachableTrap))
    case INop => s
    case IBr(t) => Jump(s, t)
    case IBrIf(t) =>
      if n < 1 then Halt(s, Fault) else if Pick(s, 1) % TWO_32 != 0 then Jump(Pop(s, 1), t) else Pop(s, 1)
    case IBrUnless(t) =>
      if n < 1 then Halt(s, Fault) else if Pick(s, 1) % TWO_32 == 0 then Jump(Pop(s, 1), t) else Pop(s, 1)
    case IBrTable(count, table) =>
      if count < 0 || table < 0 then Halt(s, Fault) else StepBrTable(code, s, count, table)
    case IReturn =>
      if s.calls == [] then Halt(s, Finished)
      else s.(pc := s.calls[|s.calls| - 1], calls := s.calls[..|s.calls| - 1])
    case ICall(t) =>
      if |s.calls| >= lim.calls then Halt(s, CallStackExhausted)
      else Jump(s.(calls := s.calls + [s.pc]), t)
    case IDrop => if n < 1 then Halt(s, Fault) else Pop(s, 1)
    case ISelect =>
      if n < 3 then Halt(s, Fault)
      else Push(lim, Pop(s, 3), if Pick(s, 1) % TWO_32 != 0 then Pick(s, 3) else Pick(s, 2))
    case IGetLocal(d) => if !InStack(s, d) then Halt(s, Fault) else Push(lim, s, Pick(s, d))
    case ISetLocal(d) =>
      if n < 1 || !InStack(Pop(s, 1), d) then Halt(s, Fault) else SetPick(Pop(s, 1), d, Pick(s, 1))
    case ITeeLocal(d) =>
      if n < 1 || !InStack(s, d) then Halt(s, Fault) else SetPick(s, d, Pick(s, 1))
    case IGetGlobal(g) =>
      if !(0 <= g < |s.globals|) then Halt(s, Fault) else Push(lim, s, s.globals[g])
    case ISetGlobal(g) =>
      if n < 1 || !(0 <= g < |s.globals|) then Halt(s, Fault)
      else Pop(s, 1).(globals := s.globals[g := Pick(s, 1)])
    case IConst32(_, v) => Push(lim, s, v % TWO_32)
    case IConst64(_, lo, hi) => Push(lim, s, lo % TWO_32 + TWO_32 * (hi % TWO_32))
    case IBin(op) =>
      if n < 2 then Halt(s, Fault)
      else (
        match ApplyBin(op, Pick(s, 2), Pick(s, 1))
        case None => Halt(s, Trapped(Semantics.DivideByZero))
        case Some(r) => Push(lim, Pop(s, 2), r))
    case IAlloca(count) =>
      if count < 0 then Halt(s, Fault)
      else if n + count >= lim.values then Halt(s, ValueStackExhausted)
      else s.(stack := s.stack + Zeros(count))
    case IData(_) => Halt(s, Fault)
    case IDropKeep(d, k) =>
      if d < 0 || k < 0 || d + k > n then Halt(s, Fault) else s.(stack := DropKeep(s.stack, d, k))
  }

  function Step(code: seq<Byte>, lim: Limits, s: Config): Config {
    if s.status != Running then s
    else
      match Fetch(code, s.pc)
      case None => Halt(s, Fault)
      case Some(i) => Execute(code, lim, s.(pc := s.pc + InstrSize(i)), i)
  }

  function Run(code: seq<Byte>, lim: Limits, s: Config, n: nat): Config
    decreases n
  {
    if n == 0 then s else Run(code, lim, Step(code, lim, s), n - 1)
  }

  lemma {:induction false} RunAdd(code: seq<Byte>, lim: Limits, s: Config, a: nat, b: nat)
    ensures Run(code, lim, s, a + b) == Run(code, lim, Run(code, lim, s, a), b)
    decreases a
  {
    if a > 0 {
      RunAdd(code, lim, Step(code, lim, s), a - 1, b);
    }
  }

  lemma {:induction false} RunHalted(code: seq<Byte>, lim: Limits, s: Config, n: nat)
    requires s.status != Running
    ensures Run(code, lim, s, n) == s
    decreases n
  {
    if n > 0 {
      RunHalted(code, lim, s, n - 1);
    }
  }
}
