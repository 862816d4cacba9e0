/** A module whose code section went out and came back behaves as it did. */
module CodeMeaning {
  import opened Syntax
  import opened Semantics
  import opened Bytecode
  import opened BinaryFormat
  import opened FunctionBody
  import opened BodyTheorems
  import opened CodeSection

  function Codes(m: Module): (r: seq<Code>)
    ensures |r| == |m.funcs| && forall i :: 0 <= i < |r| ==> r[i] == Code(m.funcs[i].decls, m.funcs[i].body)
  {
    seq(|m.funcs|, i requires 0 <= i < |m.funcs| => Code(m.funcs[i].decls, m.funcs[i].body))
  }

  /** The module with other code. */
  function WithCodes(m: Module, cs: seq<Code>): (r: Module)
    requires |cs| == |m.funcs|
    ensures |r.funcs| == |m.funcs| && r.globals == m.globals
    ensures forall i :: 0 <= i < |cs| ==> r.funcs[i] == Func(m.funcs[i].sig, cs[i].decls, cs[i].body)
  {
    m.(funcs := seq(|cs|, i requires 0 <= i < |cs| => Func(m.funcs[i].sig, cs[i].decls, cs[i].body)))
  }

  function CanonModule(m: Module): Module {
    WithCodes(m, CanonCodes(Codes(m)))
  }

  lemma CanonFunc(m: Module, f: nat)
    requires f < |m.funcs|
    ensures var fn := m.funcs[f];
            |CanonModule(m).funcs| == |m.funcs|
            && CanonModule(m).funcs[f] == Func(fn.sig, fn.decls, CanonList(fn.body))
  {
    hide CanonList;
  }

  lemma CanonOp(op: Op, s: State)
    requires op.Const?
    ensures ExecOp(Const(op.ty, ConstWord(op.ty, op.value)), s) == ExecOp(op, s)
  {
  }

  lemma {:induction false} CanonExec(m: Module, es: ExprList, labels: seq<nat>, s: State, fuel: nat)
    ensures Exec(CanonModule(m), CanonList(es), labels, s, fuel) == Exec(m, es, labels, s, fuel)
    decreases fuel, 1, es
  {
    hide ExecExpr, CanonModule;
    match es
    case Nil =>
    case Cons(e, rest) =>
      CanonExecExpr(m, e, labels, s, fuel);
      var o := ExecExpr(m, e, labels, s, fuel);
      if o.Normal? {
        CanonExec(m, rest, labels, o.state, fuel);
      }
  }

  lemma {:induction false} CanonExecExpr(m: Module, e: Expr, labels: seq<nat>, s: State, fuel: nat)
    ensures ExecExpr(CanonModule(m), CanonExpr(e), labels, s, fuel) == ExecExpr(m, e, labels, s, fuel)
    decreases fuel, 1, e
  {
    hide Exec, ExecOp, CanonModule, CallFunc, ConstWord, ExitLabel;
    match e
    case Block(sig, body) =>
      if |s.stack| >= |sig.params| {
        CanonExec(m, body, labels + [|sig.results|], s.(stack := Take(s.stack, |sig.params|)), fuel);
      }
    case Loop(sig, body) =>
      if |s.stack| >= |sig.params| {
        CanonExec(m, body, labels + [|sig.params|], s.(stack := Take(s.stack, |sig.params|)), fuel);
        var o := Exec(m, body, labels + [|sig.params|], s.(stack := Take(s.stack, |sig.params|)), fuel);
        if o.Branch? && o.depth == 0 && fuel > 0 {
          CanonExecExpr(m, e, labels, State(o.locals, Under(s.stack, |sig.params|) + o.vals, o.globals), fuel - 1);
        }
      }
    case If(sig, thn, hasElse, els) =>
      if |s.stack| >= 1 + |sig.params| {
        var inner := s.(stack := Take(Under(s.stack, 1), |sig.params|));
        CanonExec(m, thn, labels + [|sig.results|], inner, fuel);
        CanonExec(m, els, labels + [|sig.results|], inner, fuel);
        ExecNil(m, labels + [|sig.results|], inner, fuel);
      }
    case Call(f) =>
      if f < |m.funcs| {
        CanonFunc(m, f);
        if |s.stack| >= |m.funcs[f].sig.params| && fuel > 0 {
          CanonCall(m, f, Take(s.stack, |m.funcs[f].sig.params|), s.globals, fuel - 1);
        }
      } else {
        CanonSize(m);
      }
    case Simple(op) =>
      if op.Const? {
        CanonOp(op, s);
      }
    case _ =>
  }

  lemma ExecNil(m: Module, labels: seq<nat>, s: State, fuel: nat)
    ensures Exec(m, Nil, labels, s, fuel) == Normal(s)
  {
  }

  lemma CanonSize(m: Module)
    ensures |CanonModule(m).funcs| == |m.funcs|
  {
  }

  lemma {:induction false} CanonCall(m: Module, f: nat, args: seq<Word>, globals: seq<Word>, fuel: nat)
    requires f < |m.funcs|
    ensures |CanonModule(m).funcs| == |m.funcs|
    ensures CallFunc(CanonModule(m), f, args, globals, fuel) == CallFunc(m, f, args, globals, fuel)
    decreases fuel, 2
  {
    hide Exec, CanonModule, CanonList;
    CanonFunc(m, f);
    var fn := m.funcs[f];
    CanonExec(m, fn.body, [|fn.sig.results|], State(args + Zeros(LocalCount(fn.decls)), [], globals), fuel);
  }

  /** Written in either mode and read back, the code of a module computes the same: same results, globals and
      traps, and divergence exactly when it diverged before. */
  lemma CodeSectionMeans(fmt: Format, canonical: bool, m: Module, p: seq<Byte>, at: nat)
    requires |m.funcs| == fmt.funcs < TWO_32 && forall k :: 0 <= k < |m.funcs| ==> CodeOk(fmt, Codes(m)[k])
    requires |CodePayload(fmt, canonical, Codes(m))| < TWO_32
    requires CodeAt(p, at, EncodeCodeSection(fmt, canonical, Codes(m)))
    ensures var r := ReadCodeSection(fmt, p, at);
            && r.CodeRead? && |r.codes| == |m.funcs|
            && forall f: nat, args, globals, fuel :: f < |m.funcs| ==>
                 CallFunc(WithCodes(m, r.codes), f, args, globals, fuel) == CallFunc(m, f, args, globals, fuel)
  {
    hide ReadCodeSection, CodeOk, CodePayload, EncodeCodeSection, CallFunc, WithCodes, CodeAt, CanonCodes;
    CodeSectionBack(fmt, canonical, Codes(m), p, at);
    var r := ReadCodeSection(fmt, p, at);
    forall f: nat, args, globals, fuel | f < |m.funcs|
      ensures CallFunc(WithCodes(m, r.codes), f, args, globals, fuel) == CallFunc(m, f, args, globals, fuel)
    {
      CanonCall(m, f, args, globals, fuel);
    }
  }
}
