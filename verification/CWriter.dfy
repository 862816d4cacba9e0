/** `CWriter` itself: one walk over the instructions that pushes and pops a type stack and a label
    stack in place, marks labels as it jumps to them, and writes statements. */
module CWriterClass {
  import opened Syntax
  import opened TypeChecker
  import opened Elaborate
  import opened CMachine
  import opened CLowering
  import opened CSimulation
  import opened CStatics
  import opened CCorrectness
  import P = CPreservation
  import C = Correctness
  import H = SimulateOps

  /** An entry of the label stack; `used` decides whether the label is written at all. */
  datatype Entry = Entry(plain: CLabel, used: bool)

  function LabelsOf(entries: seq<Entry>): (r: seq<CLabel>)
    ensures |r| == |entries| && forall i :: 0 <= i < |r| ==> r[i] == entries[i].plain
  {
    seq(|entries|, i requires 0 <= i < |entries| => entries[i].plain)
  }

  /** Exactly the labels that `code` jumps to have been marked. */
  predicate Marked(before: seq<Entry>, after: seq<Entry>, code: seq<CStmt>) {
    |after| == |before|
    && forall i :: 0 <= i < |before| ==>
         after[i] == Entry(before[i].plain, before[i].used || UsesList(code, before[i].plain.id))
  }

  lemma MarkedPlain(before: seq<Entry>, after: seq<Entry>, code: seq<CStmt>)
    requires Marked(before, after, code)
    ensures LabelsOf(after) == LabelsOf(before)
  {
    hide UsesList;
  }

  lemma MarkedThen(a: seq<Entry>, b: seq<Entry>, c: seq<Entry>, x: seq<CStmt>, y: seq<CStmt>)
    requires Marked(a, b, x) && Marked(b, c, y)
    ensures Marked(a, c, x + y)
  {
    hide UsesList;
    forall i | 0 <= i < |a|
      ensures UsesList(x + y, a[i].plain.id) <==> UsesList(x, a[i].plain.id) || UsesList(y, a[i].plain.id)
    {
      UsesAppend(x, y, a[i].plain.id);
    }
  }

  /** Code that uses the same labels marks the same labels. */
  lemma MarkedSame(a: seq<Entry>, b: seq<Entry>, x: seq<CStmt>, y: seq<CStmt>)
    requires Marked(a, b, x)
    requires forall i :: 0 <= i < |a| ==> (UsesList(x, a[i].plain.id) <==> UsesList(y, a[i].plain.id))
    ensures Marked(a, b, y)
  {
  }

  lemma MarkedNothing(a: seq<Entry>, code: seq<CStmt>)
    requires forall k :: 0 <= k < |code|
               ==> code[k].Assign? || code[k].CallStmt? || code[k].TrapStmt? || code[k].LabelDecl?
    ensures Marked(a, a, code)
    decreases |code|
  {
    if code != [] {
      MarkedNothing(a, code[1..]);
    }
  }

  lemma MarkedGoto(a: seq<Entry>, types: seq<Type>, d: nat)
    requires d < |a|
    requires forall i, j :: 0 <= i < j < |a| ==> a[i].plain.id != a[j].plain.id
    ensures var k := |a| - 1 - d;
            Marked(a, a[k := a[k].(used := true)], GotoCode(types, LabelsOf(a), d))
  {
    var k := |a| - 1 - d;
    var l := a[k].plain;
    var copy := if l.HasValue() && |types| - l.mark - 1 != 0
      then [Assign(StackVar(l.mark, l.results[0]), Value(Operand(types, 0)))] else [];
    forall i | 0 <= i < |a| ensures UsesList(GotoCode(types, LabelsOf(a), d), a[i].plain.id) <==> i == k {
      UsesAppend(copy, [Goto(l.id)], a[i].plain.id);
      assert UsesList([Goto(l.id)], a[i].plain.id) <==> l.id == a[i].plain.id;
      assert !UsesList(copy, a[i].plain.id);
    }
  }

  /** Labels are numbered in the order in which they are pushed. */
  predicate IdsIncrease(entries: seq<Entry>, next: nat) {
    && (forall i :: 0 <= i < |entries| ==> entries[i].plain.id < next)
    && forall i, j :: 0 <= i < j < |entries| ==> entries[i].plain.id < entries[j].plain.id
  }

  class CWriter {
    const ctx: Ctx
    var typeStack: seq<Type>
    var labelStack: seq<Entry>
    var nextLabel: nat

    constructor (c: Ctx)
      ensures ctx == c && typeStack == [] && labelStack == [] && nextLabel == 0
    {
      ctx := c;
      typeStack, labelStack, nextLabel := [], [], 0;
    }

    // ----- Stacks ------------------------------------------------------------------------------------

    method PushType(ty: Type)
      modifies this`typeStack
      ensures typeStack == old(typeStack) + [ty]
    {
      typeStack := typeStack + [ty];
    }

    method PushTypes(types: seq<Type>)
      modifies this`typeStack
      ensures typeStack == old(typeStack) + types
    {
      typeStack := typeStack + types;
    }

    method DropTypes(count: nat)
      requires count <= |typeStack|
      modifies this`typeStack
      ensures typeStack == DropN(old(typeStack), count)
    {
      typeStack := typeStack[..|typeStack| - count];
    }

    method ResetTypeStack(mark: nat)
      requires mark <= |typeStack|
      modifies this`typeStack
      ensures typeStack == Reset(old(typeStack), mark)
    {
      typeStack := typeStack[..mark];
    }

    /** Multi-value labels are not implemented: that must not be asked for. */
    method PushLabel(loop: bool, sig: Sig) returns (id: nat)
      requires sig.params == [] && |sig.results| <= 1
      modifies this`labelStack, this`nextLabel
      ensures id == old(nextLabel) && nextLabel == id + 1
      ensures labelStack == old(labelStack) + [Entry(CLabel(loop, sig.results, |typeStack|, id), false)]
    {
      id := nextLabel;
      nextLabel := nextLabel + 1;
      labelStack := labelStack + [Entry(CLabel(loop, sig.results, |typeStack|, id), false)];
    }

    method PopLabel() returns (used: bool)
      requires labelStack != []
      modifies this`labelStack
      ensures labelStack == old(labelStack)[..|old(labelStack)| - 1]
              && used == old(labelStack)[|old(labelStack)| - 1].used
    {
      used := labelStack[|labelStack| - 1].used;
      labelStack := labelStack[..|labelStack| - 1];
    }

    /** `FindLabel` marks the label that it finds. */
    method FindLabel(d: nat) returns (l: CLabel)
      requires d < |labelStack|
      modifies this`labelStack
      ensures |labelStack| == |old(labelStack)| && l == old(labelStack)[|old(labelStack)| - 1 - d].plain
      ensures var k := |old(labelStack)| - 1 - d; labelStack == old(labelStack)[k := Entry(l, true)]
    {
      var k := |labelStack| - 1 - d;
      l := labelStack[k].plain;
      labelStack := labelStack[k := Entry(l, true)];
    }

    /** The value, if the label has one, is on the type stack above the label's mark. */
    method WriteGoto(d: nat) returns (code: seq<CStmt>)
      requires d < |labelStack| && IdsIncrease(labelStack, nextLabel)
      requires var l := labelStack[|labelStack| - 1 - d].plain; l.HasValue() ==> l.mark < |typeStack|
      modifies this`labelStack
      ensures code == GotoCode(typeStack, LabelsOf(old(labelStack)), d) && Marked(old(labelStack), labelStack, code)
    {
      MarkedGoto(labelStack, typeStack, d);
      var l := FindLabel(d);
      code := [];
      if l.HasValue() {
        var dst := |typeStack| - l.mark - 1;
        if dst != 0 {
          code := [Assign(StackVar(|typeStack| - 1 - dst, l.results[0]), Value(Operand(typeStack, 0)))];
        }
      }
      code := code + [Goto(l.id)];
    }

    // ----- Instructions ---------------------------------------------------------------------------------

    /** Before an instruction in reachable, validated code. */
    ghost predicate Ready(tc: Checker)
      reads this
    {
      && ConcreteCtx(ctx) && Live(tc) && tc.labels[0].kind == FuncLabel
      && typeStack == tc.types
      && Labelled(tc, LabelsOf(labelStack))
      && IdsIncrease(labelStack, nextLabel)
    }

    method WriteBinary(bin: BinOp) returns (code: seq<CStmt>)
      requires |typeStack| >= 2
      modifies this`typeStack
      ensures (code, typeStack) == LowerBinary(old(typeStack), bin)
    {
      var ty := BinResult(bin);
      var dst := StackVar(|typeStack| - 2, ty);
      if bin == I32Add || bin == I32Sub || bin == I64Add {
        code := [Assign(dst, Infix(bin, dst, Operand(typeStack, 0)))];
      } else {
        code := [Assign(dst, Infix(bin, Operand(typeStack, 1), Operand(typeStack, 0)))];
      }
      DropTypes(2);
      PushType(ty);
    }

    method WriteOp(op: Op, ghost tc: Checker) returns (code: seq<CStmt>)
      requires Ready(tc) && OnOp(ctx, tc, op).Some?
      modifies this`typeStack
      ensures (code, typeStack) == LowerOp(ctx, old(typeStack), op)
    {
      hide OnOp, Live, Labelled, IdsIncrease, LowerBinary;
      OpRoom(ctx, tc, op);
      code := [];
      match op
      case Const(ty, v) =>
        PushType(ty);
        code := [Assign(Operand(typeStack, 0), Literal(v))];
      case Binary(bin) => code := WriteBinary(bin);
      case Drop => DropTypes(1);
      case Select =>
        var ty := typeStack[|typeStack| - 2];
        code := [Assign(Operand(typeStack, 2),
                        Choose(Operand(typeStack, 0), Operand(typeStack, 2), Operand(typeStack, 1)))];
        DropTypes(3);
        PushType(ty);
      case Nop =>
      case LocalGet(x) =>
        PushType(ctx.locals[x]);
        code := [Assign(Operand(typeStack, 0), Value(LocalVar(x)))];
      case LocalSet(x) =>
        code := [Assign(LocalVar(x), Value(Operand(typeStack, 0)))];
        DropTypes(1);
      case LocalTee(x) => code := [Assign(LocalVar(x), Value(Operand(typeStack, 0)))];
      case GlobalGet(g) =>
        PushType(ctx.globals[g].ty);
        code := [Assign(Operand(typeStack, 0), Value(GlobalVar(g)))];
      case GlobalSet(g) =>
        code := [Assign(GlobalVar(g), Value(Operand(typeStack, 0)))];
        DropTypes(1);
    }

    method WriteCall(f: nat, ghost tc: Checker) returns (code: seq<CStmt>)
      requires Ready(tc) && OnCall(ctx, tc, f).Some?
      modifies this`typeStack
      ensures (code, typeStack) == LowerCall(ctx, old(typeStack), f)
    {
      hide Live, Labelled, IdsIncrease, ConcreteCtx;
      CallRoom(ctx, tc, f);
      var sig := ctx.funcs[f];
      var np := |sig.params|;
      var into := None;
      if |sig.results| > 0 {
        into := Some(StackVar(|typeStack| - np, sig.results[0]));
      }
      var args := [];
      for i := 0 to np
        invariant args == Args(typeStack, np)[..i]
      {
        args := args + [Operand(typeStack, np - i - 1)];
      }
      assert Args(typeStack, np)[..np] == Args(typeStack, np);
      code := [CallStmt(into, f, args)];
      DropTypes(np);
      PushTypes(sig.results);
    }

    /** `br`, and `return` as a branch to the function's label. */
    method WriteBr(d: nat, ghost tc: Checker) returns (code: seq<CStmt>)
      requires Ready(tc) && d < |tc.labels| && CheckSignature(tc, tc.LabelAt(d).BrTypes())
      modifies this`labelStack
      ensures code == GotoCode(typeStack, LabelsOf(old(labelStack)), d) && Marked(old(labelStack), labelStack, code)
    {
      hide CheckSignature, Marked, GotoCode, ConcreteCtx;
      BranchRoom(tc, LabelsOf(labelStack), d);
      code := WriteGoto(d);
    }

    method WriteBrIf(d: nat, ghost tc: Checker) returns (code: seq<CStmt>)
      requires Ready(tc) && OnBrIf(tc, d).Some?
      modifies this`typeStack, this`labelStack
      ensures typeStack == DropN(old(typeStack), 1)
      ensures code == [IfStmt(Operand(old(typeStack), 0), GotoCode(typeStack, LabelsOf(old(labelStack)), d), [])]
      ensures Marked(old(labelStack), labelStack, code)
    {
      hide CheckSignature, Marked, GotoCode, ConcreteCtx, OnBrIf, Live;
      BrIfChecked(tc, d);
      KeyRoom(tc, LabelsOf(labelStack));
      BranchRoom(Popped(tc), LabelsOf(labelStack), d);
      var cond := Operand(typeStack, 0);
      DropTypes(1);
      var g := WriteGoto(d);
      code := [IfStmt(cond, g, [])];
      MarkedIf(old(labelStack), labelStack, cond, g);
    }

    method WriteBrTable(targets: seq<nat>, default: nat, ghost tc: Checker) returns (code: seq<CStmt>)
      requires Ready(tc) && ElabBrTable(tc, targets, default).Some?
      modifies this`typeStack, this`labelStack
      ensures typeStack == DropN(old(typeStack), 1)
      ensures code == [Switch(Operand(old(typeStack), 0), Cases(typeStack, LabelsOf(old(labelStack)), targets),
                              GotoCode(typeStack, LabelsOf(old(labelStack)), default))]
      ensures Marked(old(labelStack), labelStack, code)
    {
      hide CheckSignature, Marked, GotoCode, ConcreteCtx, ElabBrTable, Live, MarkedCases, IdsIncrease;
      ghost var entries, labels := labelStack, LabelsOf(labelStack);
      TableChecked(tc, targets, default, |targets|);
      KeyRoom(tc, LabelsOf(labelStack));
      var key := Operand(typeStack, 0);
      DropTypes(1);
      var cases: seq<CCase> := [];
      NoCases(entries);
      for k := 0 to |targets|
        invariant typeStack == DropN(old(typeStack), 1) && nextLabel == old(nextLabel)
        invariant LabelsOf(labelStack) == labels && IdsIncrease(labelStack, nextLabel)
        invariant cases == Cases(typeStack, labels, targets)[..k]
        invariant MarkedCases(entries, labelStack, cases)
      {
        TableChecked(tc, targets, default, k);
        BranchRoom(Popped(tc), labels, targets[k]);
        ghost var before := labelStack;
        var g := WriteGoto(targets[k]);
        MarkedCase(entries, before, labelStack, cases, g);
        MarkedPlain(before, labelStack, g);
        MarkedNumbered(before, labelStack, g, nextLabel);
        cases := cases + [CCase(g)];
      }
      assert Cases(typeStack, labels, targets)[..|targets|] == Cases(typeStack, labels, targets);
      BranchRoom(Popped(tc), labels, default);
      ghost var before := labelStack;
      var g := WriteGoto(default);
      MarkedSwitch(entries, before, labelStack, key, cases, g);
      code := [Switch(key, cases, g)];
    }

    // ----- Structured instructions ------------------------------------------------------------------------

    /** `Write(const ExprList&)`: stops behind the first unconditional jump. */
    method WriteList(es: ExprList, ghost tc: Checker) returns (code: seq<CStmt>)
      requires Ready(tc) && ElabList(ctx, tc, es).Some? && NarrowList(es) && ConcreteList(es)
      modifies this`typeStack, this`labelStack, this`nextLabel
      ensures Lowered(code, typeStack, nextLabel)
           == LowerList(ctx, es, old(typeStack), LabelsOf(old(labelStack)), old(nextLabel))
      ensures Marked(old(labelStack), labelStack, code) && IdsIncrease(labelStack, nextLabel)
      decreases es, 0
    {
      hide LowerExpr, ElabExpr, NarrowExpr, ConcreteExpr, Live, Labelled, IdsIncrease, Marked, ConcreteCtx;
      ghost var entries, labels, cur := labelStack, LabelsOf(labelStack), tc;
      code := [];
      var rest := es;
      MarkedNothing(entries, []);
      while rest.Cons?
        invariant rest == es || rest < es
        invariant Ready(cur) && ElabList(ctx, cur, rest).Some? && NarrowList(rest) && ConcreteList(rest)
        invariant LabelsOf(labelStack) == labels && Marked(entries, labelStack, code)
        invariant var t := LowerList(ctx, rest, typeStack, labels, nextLabel);
                  LowerList(ctx, es, old(typeStack), labels, old(nextLabel)) == Lowered(code + t.code, t.types, t.next)
        decreases rest
      {
        ghost var before, next := labelStack, nextLabel;
        TypesExpr(ctx, cur, rest.head, labels, nextLabel);
        var h := WriteExpr(rest.head, cur);
        MarkedThen(entries, before, labelStack, code, h);
        MarkedPlain(before, labelStack, h);
        code := code + h;
        if IsJump(rest.head) {
          return;
        }
        AppendCode(code[..|code| - |h|], h, LowerList(ctx, rest.tail, typeStack, labels, nextLabel).code);
        OnLabels(cur, ElabExpr(ctx, cur, rest.head).value.tc, labels);
        cur := ElabExpr(ctx, cur, rest.head).value.tc;
        rest := rest.tail;
      }
      assert code + [] == code;
    }

    method WriteExpr(e: Expr, ghost tc: Checker) returns (code: seq<CStmt>)
      requires Ready(tc) && ElabExpr(ctx, tc, e).Some? && NarrowExpr(e) && ConcreteExpr(e)
      modifies this`typeStack, this`labelStack, this`nextLabel
      ensures Lowered(code, typeStack, nextLabel)
           == LowerExpr(ctx, e, old(typeStack), LabelsOf(old(labelStack)), old(nextLabel))
      ensures Marked(old(labelStack), labelStack, code) && IdsIncrease(labelStack, nextLabel)
      decreases e, 0
    {
      hide Live, Labelled, IdsIncrease, Marked, ConcreteCtx, LowerList, LowerOp, LowerCall, GotoCode, ElabBrTable,
           OnBrIf, OnCall;
      match e
      case Simple(op) =>
        code := WriteOp(op, tc);
        OpMarks(ctx, old(typeStack), op, labelStack);
      case Block(sig, body) => code := WriteBlock(sig, body, tc);
      case Loop(sig, body) => code := WriteLoop(sig, body, tc);
      case If(sig, thn, hasElse, els) => code := WriteIf(sig, thn, hasElse, els, tc);
      case Br(d) =>
        code := WriteBr(d, tc);
        MarkedNumbered(old(labelStack), labelStack, code, nextLabel);
      case BrIf(d) =>
        code := WriteBrIf(d, tc);
        MarkedNumbered(old(labelStack), labelStack, code, nextLabel);
      case BrTable(targets, default) =>
        code := WriteBrTable(targets, default, tc);
        MarkedNumbered(old(labelStack), labelStack, code, nextLabel);
      case Return =>
        ReturnRoom(tc, LabelsOf(labelStack));
        code := WriteBr(|labelStack| - 1, tc);
        MarkedNumbered(old(labelStack), labelStack, code, nextLabel);
      case Call(f) =>
        code := WriteCall(f, tc);
        CallMarks(ctx, old(typeStack), f, labelStack);
      case Unreachable =>
        code := [TrapStmt];
        MarkedNothing(labelStack, code);
    }

    /** Inside a label that was just pushed. */
    ghost predicate Pushed(entries: seq<Entry>, next: nat, kind: Kind, sig: Sig, tc1: Checker)
      reads this
    {
      && Ready(tc1) && nextLabel == next + 1
      && labelStack == entries + [Entry(CLabel(kind == LoopLabel, sig.results, |tc1.types|, next), false)]
    }

    method EnterLabelOf(kind: Kind, sig: Sig, ghost tc: Checker, ghost tc1: Checker) returns (id: nat)
      requires Ready(tc) && NarrowSig(sig)
      requires Entered(tc, tc1, kind, sig) && tc1.types == tc.types && tc1.Top().limit == |tc.types| && Live(tc1)
      modifies this`labelStack, this`nextLabel
      ensures id == old(nextLabel) && Pushed(old(labelStack), id, kind, sig, tc1)
      ensures LabelsOf(labelStack) == LabelsOf(old(labelStack))
              + [CLabel(kind == LoopLabel, sig.results, |tc1.types|, id)]
    {
      hide ConcreteCtx, Live;
      id := PushLabel(kind == LoopLabel, sig);
      EntryPushed(tc, tc1, kind, sig, old(labelStack), id);
    }

    /** The end of a label: off the stack, and written if something jumped to it. */
    method LeaveLabelOf(code: seq<CStmt>, sig: Sig, mark: nat, id: nat, ghost entries: seq<Entry>)
      returns (decl: seq<CStmt>)
      requires mark <= |typeStack| && |labelStack| == |entries| + 1
      requires Marked(entries + [Entry(CLabel(false, sig.results, mark, id), false)], labelStack, code)
      requires IdsIncrease(entries, id) && id < nextLabel
      modifies this`typeStack, this`labelStack
      ensures decl == Decl(code, id) && typeStack == Reset(old(typeStack), mark) + sig.results
      ensures Marked(entries, labelStack, code + decl) && IdsIncrease(labelStack, nextLabel)
    {
      hide UsesList;
      var used := PopLabel();
      decl := [];
      if used {
        decl := [LabelDecl(id)];
      }
      LeaveMarks(entries, old(labelStack), labelStack, code, decl);
      ResetTypeStack(mark);
      PushTypes(sig.results);
    }

    method WriteBlock(sig: Sig, body: ExprList, ghost tc: Checker) returns (code: seq<CStmt>)
      requires Ready(tc) && ElabExpr(ctx, tc, Block(sig, body)).Some? && NarrowExpr(Block(sig, body))
               && ConcreteExpr(Block(sig, body))
      modifies this`typeStack, this`labelStack, this`nextLabel
      ensures Lowered(code, typeStack, nextLabel)
           == LowerExpr(ctx, Block(sig, body), old(typeStack), LabelsOf(old(labelStack)), old(nextLabel))
      ensures Marked(old(labelStack), labelStack, code) && IdsIncrease(labelStack, nextLabel)
      decreases body, 1
    {
      hide Live, Labelled, IdsIncrease, Marked, ConcreteCtx, LowerList, ElabList, NarrowList, ConcreteList, EnterLabel,
           OnEnd;
      hide C.Exits, Entered, Reset, Above;
      ghost var entries := labelStack;
      LabelInside(ctx, tc, BlockLabel, sig, body);
      ghost var tc1 := EnterLabel(tc, BlockLabel, sig).value;
      var mark := |typeStack|;
      var id := EnterLabelOf(BlockLabel, sig, tc, tc1);
      TypesList(ctx, tc1, body, LabelsOf(labelStack), nextLabel);
      LowerNext(ctx, body, tc1.types, LabelsOf(labelStack), nextLabel);
      ghost var pushed := labelStack;
      code := WriteList(body, tc1);
      MarkedShape(pushed, labelStack, code);
      AboveMark(tc1, typeStack);
      var decl := LeaveLabelOf(code, sig, mark, id, entries);
      code := code + decl;
    }

    /** A loop's label is always written, in front; an empty loop leaves no trace. */
    method WriteLoop(sig: Sig, body: ExprList, ghost tc: Checker) returns (code: seq<CStmt>)
      requires Ready(tc) && ElabExpr(ctx, tc, Loop(sig, body)).Some? && NarrowExpr(Loop(sig, body))
               && ConcreteExpr(Loop(sig, body))
      modifies this`typeStack, this`labelStack, this`nextLabel
      ensures Lowered(code, typeStack, nextLabel)
           == LowerExpr(ctx, Loop(sig, body), old(typeStack), LabelsOf(old(labelStack)), old(nextLabel))
      ensures Marked(old(labelStack), labelStack, code) && IdsIncrease(labelStack, nextLabel)
      decreases body, 1
    {
      hide Live, Labelled, IdsIncrease, Marked, ConcreteCtx, LowerList, ElabList, NarrowList, ConcreteList, EnterLabel,
           OnEnd;
      hide C.Exits, Entered, Reset, Above;
      ghost var entries := labelStack;
      if body == Nil {
        MarkedNothing(entries, []);
        return [];
      }
      LabelInside(ctx, tc, LoopLabel, sig, body);
      ghost var tc1 := EnterLabel(tc, LoopLabel, sig).value;
      var mark := |typeStack|;
      var id := EnterLabelOf(LoopLabel, sig, tc, tc1);
      TypesList(ctx, tc1, body, LabelsOf(labelStack), nextLabel);
      LowerNext(ctx, body, tc1.types, LabelsOf(labelStack), nextLabel);
      ghost var pushed := labelStack;
      code := WriteList(body, tc1);
      AboveMark(tc1, typeStack);
      ghost var inner := labelStack;
      MarkedShape(pushed, inner, code);
      var _ := PopLabel();
      LoopMarks(entries, pushed, inner, labelStack, code, id, nextLabel);
      ResetTypeStack(mark);
      PushTypes(sig.results);
      code := [LabelDecl(id)] + code;
    }

    method WriteIf(sig: Sig, thn: ExprList, hasElse: bool, els: ExprList, ghost tc: Checker) returns (code: seq<CStmt>)
      requires var e := If(sig, thn, hasElse, els);
               Ready(tc) && ElabExpr(ctx, tc, e).Some? && NarrowExpr(e) && ConcreteExpr(e)
      modifies this`typeStack, this`labelStack, this`nextLabel
      ensures Lowered(code, typeStack, nextLabel)
           == LowerExpr(ctx, If(sig, thn, hasElse, els), old(typeStack), LabelsOf(old(labelStack)), old(nextLabel))
      ensures Marked(old(labelStack), labelStack, code) && IdsIncrease(labelStack, nextLabel)
      decreases If(sig, thn, hasElse, els), -1
    {
      hide Live, Labelled, IdsIncrease, Marked, ConcreteCtx, LowerList, ElabList, ElabExpr, NarrowList, ConcreteList,
           OnIf, OnElse;
      hide Entered, Reset, Above, PopSignature;
      ghost var entries, labels, next := labelStack, LabelsOf(labelStack), nextLabel;
      IfRoom(ctx, tc, sig, thn, hasElse, els);
      ghost var tc0, tc1 := Popped(tc), OnIf(tc, sig).value;
      var cond := Operand(typeStack, 0);
      OnLabels(tc, tc0, labels);
      DropTypes(1);
      var mark := |typeStack|;
      var id := EnterLabelOf(IfLabel, sig, tc0, tc1);
      ghost var pushed := labelStack;
      TypesList(ctx, tc1, thn, LabelsOf(pushed), nextLabel);
      LowerNext(ctx, thn, tc1.types, LabelsOf(pushed), nextLabel);
      var t := WriteList(thn, tc1);
      ghost var inner := labelStack;
      MarkedPlain(pushed, inner, t);
      MarkedShape(pushed, inner, t);
      AboveMark(tc1, typeStack);
      ResetAbove(tc1, typeStack, tc0.types);
      var f := [];
      if hasElse && els != Nil {
        ElseStack(ctx, tc, sig, thn, els);
        ghost var tc3 := OnElse(ElabList(ctx, tc1, thn).value.tc).value;
        ElseReady(tc0, tc1, tc3, sig, LabelsOf(pushed));
        ResetTypeStack(mark);
        TypesList(ctx, tc3, els, LabelsOf(pushed), nextLabel);
        LowerNext(ctx, els, tc3.types, LabelsOf(pushed), nextLabel);
        f := WriteList(els, tc3);
        MarkedShape(inner, labelStack, f);
        AboveMark(tc3, typeStack);
        ResetAbove(tc3, typeStack, tc0.types);
      } else {
        MarkedNothing(inner, f);
      }
      var stmt := IfStmt(cond, t, f);
      MarkedArms(pushed, inner, labelStack, cond, t, f);
      var decl := LeaveLabelOf([stmt], sig, mark, id, entries);
      code := [stmt] + decl;
      LowerIfIs(ctx, tc.types, sig, thn, hasElse, els, labels, next);
    }
  }

  lemma OpRoom(ctx: Ctx, tc: Checker, op: Op)
    requires Live(tc) && OnOp(ctx, tc, op).Some?
    ensures op.LocalGet? || op.LocalSet? || op.LocalTee? ==> op.x < |ctx.locals|
    ensures op.GlobalGet? || op.GlobalSet? ==> op.g < |ctx.globals|
    ensures op.Binary? ==> |tc.types| >= 2
    ensures op.Select? ==> |tc.types| >= 3
    ensures op.Drop? || op.LocalSet? || op.LocalTee? || op.GlobalSet? ==> |tc.types| >= 1
  {
    hide OnOp;
    H.OpHeight(ctx, tc, op);
  }

  lemma CallRoom(ctx: Ctx, tc: Checker, f: nat)
    requires Live(tc) && OnCall(ctx, tc, f).Some?
    ensures f < |ctx.funcs| && |ctx.funcs[f].params| <= |tc.types|
  {
    hide PopSignature, Nested;
    H.PopPushHeight(tc, ctx.funcs[f].params, ctx.funcs[f].results);
  }

  lemma BranchRoom(tc: Checker, labels: seq<CLabel>, d: nat)
    requires Live(tc) && Labelled(tc, labels) && d < |tc.labels| && CheckSignature(tc, tc.LabelAt(d).BrTypes())
    ensures d < |labels|
    ensures var l := labels[|labels| - 1 - d]; l.HasValue() ==> l.mark < |tc.types|
  {
    hide CheckSignature, Nested;
    BranchValue(tc, d);
    assert PlainLabel(tc.labels[|tc.labels| - 1 - d]);
  }

  lemma KeyRoom(tc: Checker, labels: seq<CLabel>)
    requires Live(tc) && PopSignature(tc, [I32]).Some? && Labelled(tc, labels)
    ensures 1 <= |tc.types| && Labelled(Popped(tc), labels)
  {
    hide Nested;
    PopConcrete(tc, [I32]);
  }

  lemma MarkedNumbered(a: seq<Entry>, b: seq<Entry>, code: seq<CStmt>, next: nat)
    requires Marked(a, b, code) && IdsIncrease(a, next)
    ensures IdsIncrease(b, next)
  {
    hide UsesList;
  }

  lemma MarkedIf(a: seq<Entry>, b: seq<Entry>, cond: CVar, g: seq<CStmt>)
    requires Marked(a, b, g)
    ensures Marked(a, b, [IfStmt(cond, g, [])])
  {
    forall i | 0 <= i < |a| ensures UsesList(g, a[i].plain.id) <==> UsesList([IfStmt(cond, g, [])], a[i].plain.id) {
      assert !UsesList([], a[i].plain.id);
    }
    MarkedSame(a, b, g, [IfStmt(cond, g, [])]);
  }

  predicate MarkedCases(before: seq<Entry>, after: seq<Entry>, cases: seq<CCase>) {
    |after| == |before|
    && forall i :: 0 <= i < |before| ==>
         after[i] == Entry(before[i].plain, before[i].used || UsesAny(cases, before[i].plain.id))
  }

  lemma NoCases(a: seq<Entry>)
    ensures MarkedCases(a, a, [])
  {
  }

  lemma {:induction false} UsesSnoc(cases: seq<CCase>, g: seq<CStmt>, id: nat)
    ensures UsesAny(cases + [CCase(g)], id) <==> UsesAny(cases, id) || UsesList(g, id)
    decreases |cases|
  {
    hide UsesList;
    if cases == [] {
      assert cases + [CCase(g)] == [CCase(g)];
    } else {
      assert (cases + [CCase(g)])[1..] == cases[1..] + [CCase(g)];
      UsesSnoc(cases[1..], g, id);
    }
  }

  lemma MarkedCase(a: seq<Entry>, b: seq<Entry>, c: seq<Entry>, cases: seq<CCase>, g: seq<CStmt>)
    requires MarkedCases(a, b, cases) && Marked(b, c, g)
    ensures MarkedCases(a, c, cases + [CCase(g)])
  {
    hide UsesList, UsesAny;
    forall i | 0 <= i < |a|
      ensures UsesAny(cases + [CCase(g)], a[i].plain.id)
              <==> UsesAny(cases, a[i].plain.id) || UsesList(g, a[i].plain.id)
    {
      UsesSnoc(cases, g, a[i].plain.id);
    }
  }

  lemma MarkedSwitch(a: seq<Entry>, b: seq<Entry>, c: seq<Entry>, key: CVar, cases: seq<CCase>, g: seq<CStmt>)
    requires MarkedCases(a, b, cases) && Marked(b, c, g)
    ensures Marked(a, c, [Switch(key, cases, g)])
  {
    hide UsesAny;
    forall i | 0 <= i < |a|
      ensures UsesList([Switch(key, cases, g)], a[i].plain.id)
              <==> UsesAny(cases, a[i].plain.id) || UsesList(g, a[i].plain.id)
    {
      assert !UsesList([], a[i].plain.id);
    }
  }

  lemma AppendCode(a: seq<CStmt>, h: seq<CStmt>, t: seq<CStmt>)
    ensures (a + h) + t == a + (h + t)
  {
  }

  lemma OnLabels(tc: Checker, tc': Checker, labels: seq<CLabel>)
    requires Labelled(tc, labels) && tc'.labels == tc.labels
    ensures Labelled(tc', labels)
  {
  }

  lemma OpMarks(ctx: Ctx, types: seq<Type>, op: Op, entries: seq<Entry>)
    ensures Marked(entries, entries, LowerOp(ctx, types, op).0)
  {
    hide Marked;
    MarkedNothing(entries, LowerOp(ctx, types, op).0);
  }

  lemma CallMarks(ctx: Ctx, types: seq<Type>, f: nat, entries: seq<Entry>)
    ensures Marked(entries, entries, LowerCall(ctx, types, f).0)
  {
    hide Marked;
    MarkedNothing(entries, LowerCall(ctx, types, f).0);
  }

  lemma ReturnRoom(tc: Checker, labels: seq<CLabel>)
    requires Live(tc) && tc.labels[0].kind == FuncLabel && Labelled(tc, labels) && OnReturn(tc).Some?
    ensures |labels| == |tc.labels| >= 1 && CheckSignature(tc, tc.LabelAt(|labels| - 1).BrTypes())
  {
    hide CheckSignature, Nested;
  }

  /** Just inside a block or loop. */
  lemma LabelInside(ctx: Ctx, tc: Checker, kind: Kind, sig: Sig, body: ExprList)
    requires kind == BlockLabel || kind == LoopLabel
    requires Live(tc) && NarrowSig(sig) && Concrete(sig.results)
             && ElabExpr(ctx, tc, C.LabelExpr(kind, sig, body)).Some?
    ensures EnterLabel(tc, kind, sig).Some?
    ensures var tc1 := EnterLabel(tc, kind, sig).value;
            && Entered(tc, tc1, kind, sig) && tc1.types == tc.types && tc1.Top().limit == |tc.types| && Live(tc1)
            && ElabList(ctx, tc1, body).Some?
  {
    hide Live, ElabList, EnterLabel, OnEnd, Entered, C.Exits;
    C.ElabBodyParts(ctx, EnterLabel(tc, kind, sig), body);
    LabelStack(ctx, tc, kind, sig, body);
  }

  lemma EntryPushed(tc: Checker, tc1: Checker, kind: Kind, sig: Sig, entries: seq<Entry>, next: nat)
    requires Wf(tc) && Labelled(tc, LabelsOf(entries)) && IdsIncrease(entries, next) && tc.labels[0].kind == FuncLabel
    requires Entered(tc, tc1, kind, sig) && tc1.Top().limit == |tc.types| && tc1.types == tc.types
    ensures var l := CLabel(kind == LoopLabel, sig.results, |tc1.types|, next);
            var entries' := entries + [Entry(l, false)];
            && Labelled(tc1, LabelsOf(entries')) && IdsIncrease(entries', next + 1)
            && LabelsOf(entries') == LabelsOf(entries) + [l]
            && tc1.labels[0].kind == FuncLabel
  {
    hide Nested;
    forall i | 0 <= i < |tc.labels| ensures tc1.labels[i] == tc.labels[i] {
      assert tc1.labels[i] == tc1.labels[..|tc.labels|][i];
    }
  }

  lemma AboveMark(tc1: Checker, types: seq<Type>)
    requires Above(tc1, types)
    ensures tc1.Top().limit <= |types|
  {
  }

  lemma LowerNext(ctx: Ctx, es: ExprList, types: seq<Type>, labels: seq<CLabel>, next: nat)
    ensures LowerList(ctx, es, types, labels, next).next >= next
  {
    hide LowerList;
    ListDeclares(ctx, es, types, labels, next);
  }

  /** Popping a label leaves the marks on the labels around it. */
  lemma LeaveMarks(entries: seq<Entry>, inner: seq<Entry>, outer: seq<Entry>, code: seq<CStmt>, decl: seq<CStmt>)
    requires |inner| == |entries| + 1 && outer == inner[..|entries|]
    requires exists l :: Marked(entries + [l], inner, code)
    requires forall k :: 0 <= k < |decl| ==> decl[k].LabelDecl?
    ensures Marked(entries, outer, code + decl)
  {
    hide UsesList;
    assert Marked(entries, outer, code);
    MarkedNothing(outer, decl);
    MarkedThen(entries, outer, outer, code, decl);
  }

  lemma MarkedShape(a: seq<Entry>, b: seq<Entry>, code: seq<CStmt>)
    requires Marked(a, b, code)
    ensures |b| == |a|
  {
  }

  lemma LoopMarks(entries: seq<Entry>, pushed: seq<Entry>, inner: seq<Entry>, outer: seq<Entry>, code: seq<CStmt>,
                  id: nat, next: nat)
    requires |pushed| == |entries| + 1 && pushed[..|entries|] == entries
    requires Marked(pushed, inner, code) && outer == inner[..|entries|] && IdsIncrease(inner, next)
    ensures Marked(entries, outer, [LabelDecl(id)] + code) && IdsIncrease(outer, next)
  {
    hide UsesList;
    assert Marked(entries, outer, code);
    MarkedNothing(entries, [LabelDecl(id)]);
    MarkedThen(entries, entries, outer, [LabelDecl(id)], code);
  }

  /** The condition and both branches of an `if` statement mark together. */
  lemma MarkedArms(a: seq<Entry>, b: seq<Entry>, c: seq<Entry>, cond: CVar, t: seq<CStmt>, f: seq<CStmt>)
    requires Marked(a, b, t) && Marked(b, c, f)
    ensures Marked(a, c, [IfStmt(cond, t, f)])
  {
    forall i | 0 <= i < |a|
      ensures UsesList([IfStmt(cond, t, f)], a[i].plain.id)
              <==> UsesList(t, a[i].plain.id) || UsesList(f, a[i].plain.id)
    {
      assert !UsesList([], a[i].plain.id);
    }
  }

  lemma IfRoom(ctx: Ctx, tc: Checker, sig: Sig, thn: ExprList, hasElse: bool, els: ExprList)
    requires Live(tc) && NarrowSig(sig) && Concrete(sig.results) && ElabExpr(ctx, tc, If(sig, thn, hasElse, els)).Some?
    ensures PopSignature(tc, [I32]).Some? && OnIf(tc, sig).Some? && ElabList(ctx, OnIf(tc, sig).value, thn).Some?
    ensures var tc0, tc1 := Popped(tc), OnIf(tc, sig).value;
            && 1 <= |tc.types| && Live(tc0) && Wf(tc0)
            && Entered(tc0, tc1, IfLabel, sig) && tc1.types == tc0.types && tc1.Top().limit == |tc0.types| && Live(tc1)
  {
    hide ElabExpr, ElabList, OnIf, PopSignature, Entered, Nested;
    IfStack(ctx, tc, sig, thn, hasElse, els);
  }

  /** At `else` the label is as it was at `if`. */
  lemma ElseReady(tc0: Checker, tc1: Checker, tc3: Checker, sig: Sig, labels: seq<CLabel>)
    requires Entered(tc0, tc1, IfLabel, sig) && Entered(tc0, tc3, ElseLabel, sig) && Labelled(tc1, labels)
    requires tc1.Top().limit == tc3.Top().limit
    ensures Labelled(tc3, labels) && tc3.labels[0].kind == tc0.labels[0].kind
  {
    hide Nested;
    var n := |tc0.labels|;
    forall i | 0 <= i < n ensures tc3.labels[i] == tc1.labels[i] == tc0.labels[i] {
      assert tc3.labels[i] == tc3.labels[..n][i] && tc1.labels[i] == tc1.labels[..n][i];
    }
  }

  lemma LowerIfIs(ctx: Ctx, types: seq<Type>, sig: Sig, thn: ExprList, hasElse: bool, els: ExprList,
                  labels: seq<CLabel>, next: nat)
    ensures var types0 := DropN(types, 1);
            var labels' := labels + [CLabel(false, sig.results, |types0|, next)];
            var t := LowerList(ctx, thn, types0, labels', next + 1);
            var f := if hasElse && els != Nil then LowerList(ctx, els, Reset(t.types, |types0|), labels', t.next)
                     else Lowered([], t.types, t.next);
            var stmt := IfStmt(Operand(types, 0), t.code, f.code);
            LowerExpr(ctx, If(sig, thn, hasElse, els), types, labels, next)
            == Lowered([stmt] + Decl([stmt], next), Reset(f.types, |types0|) + sig.results, f.next)
  {
    hide Decl;
    var types0 := DropN(types, 1);
    var t := LowerList(ctx, thn, types0, labels + [CLabel(false, sig.results, |types0|, next)], next + 1);
    assert Reset(Reset(t.types, |types0|), |types0|) == Reset(t.types, |types0|);
  }

  // ----- Functions and modules ----------------------------------------------------------------------------

  lemma FuncInside(m: Module, f: nat)
    requires f < |m.funcs| && ConcreteModule(m) && Narrow(m) && ElabFunc(m, f).Some?
    ensures var fn, ctx := m.funcs[f], CtxOf(m, f);
            var tc := BeginFunction(fn.sig.results);
            && ConcreteCtx(ctx) && Live(tc)
            && ElabList(ctx, tc, fn.body).Some? && NarrowList(fn.body) && ConcreteList(fn.body)
            && fn.sig.results == tc.labels[0].results && |fn.sig.results| <= 1
  {
    hide ElabList, NarrowList, ConcreteList, EndFunction, ReturnInstrs, LocalTypes, LowerModule, ConcreteCtx;
    assert ConcreteFunc(m.funcs[f]);
    InFuncConcrete(CProg(m, LowerModule(m), 0), f);
    P.FuncElab(m, f);
  }

  /** `Write(const Func&)`. */
  method WriteFunc(m: Module, f: nat) returns (fn: CFunc)
    requires f < |m.funcs| && ConcreteModule(m) && Narrow(m) && ElabFunc(m, f).Some?
    ensures fn == LowerFunc(m, f)
  {
    hide ElabFunc, ConcreteModule, Narrow, LowerList, ElabList, NarrowList, ConcreteList, ConcreteCtx, LocalTypes;
    FuncInside(m, f);
    var sig := m.funcs[f].sig;
    ghost var tc := BeginFunction(sig.results);
    var writer := new CWriter(CtxOf(m, f));
    var id := writer.PushLabel(false, Sig([], sig.results));
    assert LabelsOf(writer.labelStack) == [CLabel(false, sig.results, 0, 0)];
    ghost var pushed := writer.labelStack;
    var code := writer.WriteList(m.funcs[f].body, tc);
    FuncMarks(pushed, writer.labelStack, code, id);
    var used := writer.PopLabel();
    if used {
      code := code + [LabelDecl(id)];
    }
    assert used ==> code == LowerList(CtxOf(m, f), m.funcs[f].body, [], [CLabel(false, sig.results, 0, 0)], 1).code
                    + [LabelDecl(0)];
    fn := CFunc(sig, LocalTypes(m.funcs[f]), code);
  }

  lemma FuncMarks(pushed: seq<Entry>, after: seq<Entry>, code: seq<CStmt>, id: nat)
    requires |pushed| == 1 && pushed[0].plain.id == id && !pushed[0].used && Marked(pushed, after, code)
    ensures |after| == 1 && after[0].used == UsesList(code, id)
    ensures !UsesList(code, id) ==> code + Decl(code, id) == code
  {
  }

  /** All functions of a validated module: the result is the C that `CTheorems` is about. */
  method WriteModule(m: Module) returns (c: CModule)
    requires ConcreteModule(m) && Narrow(m) && forall f :: 0 <= f < |m.funcs| ==> ElabFunc(m, f).Some?
    ensures c == LowerModule(m)
  {
    hide ElabFunc, ConcreteModule, Narrow, LowerFunc;
    var funcs: seq<CFunc> := [];
    for f := 0 to |m.funcs|
      invariant |funcs| == f && forall k :: 0 <= k < f ==> funcs[k] == LowerFunc(m, k)
    {
      var fn := WriteFunc(m, f);
      funcs := funcs + [fn];
    }
    c := CModule(funcs, seq(|m.globals|, g requires 0 <= g < |m.globals| => m.globals[g].ty));
    assert c.funcs == LowerModule(m).funcs && c.globals == LowerModule(m).globals;
  }
}
