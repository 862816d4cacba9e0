/** The structured semantics of WebAssembly Core Specification 1.0, section 4.4, for the
    instructions of `Syntax`: every label has its own operand stack, and a branch carries the
    label's values outwards. Loop iterations and calls spend fuel, so `Timeout` for every amount of
    fuel is divergence. */
module Semantics {
  import opened Syntax

  datatype TrapKind = UnreachableTrap | DivideByZero

  /** `stack` is the operand stack of the innermost label only. */
  datatype State = State(locals: seq<Word>, stack: seq<Word>, globals: seq<Word>)

  datatype Outcome =
    | Normal(state: State)
    | Branch(depth: nat, vals: seq<Word>, locals: seq<Word>, globals: seq<Word>)
    | Returned(vals: seq<Word>, globals: seq<Word>)
    | Trapped(kind: TrapKind)
    | Stuck
    | Timeout

  function Take(s: seq<Word>, n: nat): (r: seq<Word>)
    requires n <= |s|
    ensures |r| == n
  {
    s[|s| - n..]
  }

  function Under(s: seq<Word>, n: nat): (r: seq<Word>)
    requires n <= |s|
    ensures |r| == |s| - n
  {
    s[..|s| - n]
  }

  function Top(s: seq<Word>): Word
    requires s != []
  {
    s[|s| - 1]
  }

  function ExecOp(op: Op, s: State): Outcome {
    var n := |s.stack|;
    match op
    case Const(ty, v) => Normal(s.(stack := s.stack + [ConstWord(ty, v)]))
    case Binary(bin) =>
      if n < 2 then Stuck
      else (
        match ApplyBin(bin, s.stack[n - 2], s.stack[n - 1])
        case None => Trapped(DivideByZero)
        case Some(r) => Normal(s.(stack := Under(s.stack, 2) + [r])))
    case Drop => if n < 1 then Stuck else Normal(s.(stack := Under(s.stack, 1)))
    case Select =>
      if n < 3 then Stuck
      else
        var chosen := if Top(s.stack) % TWO_32 != 0 then s.stack[n - 3] else s.stack[n - 2];
        Normal(s.(stack := Under(s.stack, 3) + [chosen]))
    case Nop => Normal(s)
    case LocalGet(x) =>
      if x >= |s.locals| then Stuck else Normal(s.(stack := s.stack + [s.locals[x]]))
    case LocalSet(x) =>
      if x >= |s.locals| || n < 1 then Stuck
      else Normal(s.(locals := s.locals[x := Top(s.stack)], stack := Under(s.stack, 1)))
    case LocalTee(x) =>
      if x >= |s.locals| || n < 1 then Stuck
      else Normal(s.(locals := s.locals[x := Top(s.stack)]))
    case GlobalGet(g) =>
      if g >= |s.globals| then Stuck else Normal(s.(stack := s.stack + [s.globals[g]]))
    case GlobalSet(g) =>
      if g >= |s.globals| || n < 1 then Stuck
      else Normal(s.(globals := s.globals[g := Top(s.stack)], stack := Under(s.stack, 1)))
  }

  /** `labels` holds the branch arity of every enclosing label, outermost (the function) first. */
  function BranchTo(depth: nat, labels: seq<nat>, s: State): Outcome {
    if depth >= |labels| then Stuck
    else
      var arity := labels[|labels| - 1 - depth];
      if |s.stack| < arity then Stuck
      else Branch(depth, Take(s.stack, arity), s.locals, s.globals)
  }

  /** What leaving a label means for the code around it: `base` is the operand stack below it. */
  function ExitLabel(o: Outcome, base: seq<Word>): Outcome {
    match o
    case Normal(s) => Normal(s.(stack := base + s.stack))
    case Branch(d, vals, ls, gs) =>
      if d == 0 then Normal(State(ls, base + vals, gs)) else Branch(d - 1, vals, ls, gs)
    case _ => o
  }

  function Exec(m: Module, es: ExprList, labels: seq<nat>, s: State, fuel: nat): Outcome
    decreases fuel, 0, es
  {
    match es
    case Nil => Normal(s)
    case Cons(e, rest) =>
      var o := ExecExpr(m, e, labels, s, fuel);
      if o.Normal? then Exec(m, rest, labels, o.state, fuel) else o
  }

  function ExecExpr(m: Module, e: Expr, labels: seq<nat>, s: State, fuel: nat): Outcome
    decreases fuel, 0, e
  {
    var n := |s.stack|;
    match e
    case Simple(op) => ExecOp(op, s)
    case Block(sig, body) =>
      if n < |sig.params| then Stuck
      else
        var inner := s.(stack := Take(s.stack, |sig.params|));
        ExitLabel(Exec(m, body, labels + [|sig.results|], inner, fuel), Under(s.stack, |sig.params|))
    case Loop(sig, body) =>
      if n < |sig.params| then Stuck
      else
        var base := Under(s.stack, |sig.params|);
        var inner := s.(stack := Take(s.stack, |sig.params|));
        var o := Exec(m, body, labels + [|sig.params|], inner, fuel);
        if o.Branch? && o.depth == 0 then
          if fuel == 0 then Timeout
          else ExecExpr(m, e, labels, State(o.locals, base + o.vals, o.globals), fuel - 1)
        else ExitLabel(o, base)
    case If(sig, thn, hasElse, els) =>
      if n < 1 + |sig.params| then Stuck
      else
        var rest := Under(s.stack, 1);
        var inner := s.(stack := Take(rest, |sig.params|));
        var labels' := labels + [|sig.results|];
        var o :=
          if Top(s.stack) % TWO_32 != 0 then Exec(m, thn, labels', inner, fuel)
          else if hasElse then Exec(m, els, labels', inner, fuel)
          else Normal(inner);
        ExitLabel(o, Under(rest, |sig.params|))
    case Br(d) => BranchTo(d, labels, s)
    case BrIf(d) =>
      if n < 1 then Stuck
      else
        var s' := s.(stack := Under(s.stack, 1));
        if Top(s.stack) % TWO_32 != 0 then BranchTo(d, labels, s') else Normal(s')
    case BrTable(targets, default) =>
      if n < 1 then Stuck
      else
        var key := Top(s.stack) % TWO_32;
        var d := if key < |targets| then targets[key] else default;
        BranchTo(d, labels, s.(stack := Under(s.stack, 1)))
    case Return =>
      if labels == [] || n < labels[0] then Stuck
      else Returned(Take(s.stack, labels[0]), s.globals)
    case Call(f) =>
      if f >= |m.funcs| || n < |m.funcs[f].sig.params| then Stuck
      else if fuel == 0 then Timeout
      else
        var np := |m.funcs[f].sig.params|;
        var o := CallFunc(m, f, Take(s.stack, np), s.globals, fuel - 1);
        if o.Returned? then Normal(State(s.locals, Under(s.stack, np) + o.vals, o.globals)) else o
    case Unreachable => Trapped(UnreachableTrap)
  }

  /** Invocation of a defined function, section 4.4.7. Never `Normal` and never `Branch`. */
  function CallFunc(m: Module, f: nat, args: seq<Word>, globals: seq<Word>, fuel: nat): (o: Outcome)
    requires f < |m.funcs|
    ensures !o.Normal? && !o.Branch?
    decreases fuel, 1
  {
    var fn := m.funcs[f];
    var start := State(args + Zeros(LocalCount(fn.decls)), [], globals);
    match Exec(m, fn.body, [|fn.sig.results|], start, fuel)
    case Normal(s) => if |s.stack| == |fn.sig.results| then Returned(s.stack, s.globals) else Stuck
    case Branch(d, vals, _, gs) => if d == 0 then Returned(vals, gs) else Stuck
    case o => o
  }
}
