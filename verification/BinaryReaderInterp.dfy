/** The one-pass compiler itself. Every callback validates, emits, and records or resolves fixups
    in place; `ReadList` makes the callbacks in the order in which the binary reader does. */
module InterpReader {
  import opened Syntax
  import opened TypeChecker
  import opened Bytecode
  import opened Elaborate
  import opened Layout
  import opened Emission
  import opened Confinement
  import opened Linking

  class BinaryReaderInterp {
    const mod: Module
    /** The stream as it was before this module. */
    ghost const before: seq<Byte>
    var istream: seq<Byte>
    var labelStack: seq<Target>
    var depthFixups: seq<seq<nat>>
    var funcFixups: seq<seq<nat>>
    var funcOffsets: seq<nat>
    var checker: Checker
    var ctx: Ctx

    ghost function Now(): Stream
      reads this
    {
      Stream(istream, labelStack, depthFixups, funcFixups, funcOffsets)
    }

    ghost predicate Valid()
      reads this
    {
      && Now().Wf()
      && Wf(checker)
      && |labelStack| == |checker.labels|
      && |funcOffsets| == |mod.funcs| == |ctx.funcs|
    }

    /** Earlier code is untouched, and no recorded offset points into it. */
    ghost predicate Safe()
      reads this
    {
      Confined(before, Now(), checker.labels)
    }

    /** The same between function bodies. */
    ghost predicate FunctionsSafe()
      reads this
    {
      before <= istream && AllFrom(funcFixups, |before|)
    }

    method EmitData(bytes: seq<Byte>)
      modifies this`istream
      ensures Now() == AppendBytes(old(Now()), bytes)
    {
      istream := istream + bytes;
    }

    method EmitInstr(i: Instr)
      modifies this`istream
      ensures Now() == AppendBytes(old(Now()), Encode(i))
    {
      EmitData(Encode(i));
    }

    /** One instruction, or none at all. */
    method EmitOp(instrs: seq<Instr>)
      requires |instrs| <= 1
      modifies this`istream
      ensures Now() == AppendBytes(old(Now()), EncodeAll(instrs))
    {
      hide Encode;
      if |instrs| == 1 {
        assert EncodeAll(instrs) == Encode(instrs[0]) + EncodeAll([]);
        EmitInstr(instrs[0]);
      } else {
        assert istream + [] == istream;
      }
    }

    method EmitI32At(at: nat, value: int)
      modifies this`istream
      ensures istream == Patch(old(istream), at, value)
    {
      istream := Patch(istream, at, value);
    }

    method EmitDropKeep(drop: int, keep: nat)
      modifies this`istream
      ensures Now() == AppendBytes(old(Now()), EncodeAll(DropKeepInstrs(drop, keep)))
    {
      var d := drop % TWO_32;
      if d > 0 {
        if d == 1 && keep == 0 {
          EmitInstr(IDrop);
        } else {
          EmitInstr(IDropKeep(d, keep));
        }
      }
    }

    method EmitBrOffset(depth: nat)
      requires depth < |labelStack|
      modifies this`istream, this`depthFixups
      ensures Now() == BrOffset(old(Now()), depth)
    {
      var i := |labelStack| - 1 - depth;
      var offset := labelStack[i].offset;
      if offset == INVALID {
        depthFixups := AppendFixup(depthFixups, i, |istream|);
      }
      EmitData(U32(offset));
    }

    method EmitBr(j: Jump)
      requires j.depth < |labelStack|
      modifies this`istream, this`depthFixups
      ensures Now() == BrStream(old(Now()), j)
    {
      EmitDropKeep(j.drop, j.keep);
      EmitData([Opcode(IBr(0))]);
      EmitBrOffset(j.depth);
    }

    method EmitFuncOffset(f: nat)
      requires f < |funcOffsets|
      modifies this`istream, this`funcFixups
      ensures Now() == CallOffset(old(Now()), f)
    {
      if funcOffsets[f] == INVALID {
        funcFixups := AppendFixup(funcFixups, f, |istream|);
      }
      EmitData(U32(funcOffsets[f]));
    }

    /** Overwrites every recorded operand in turn. */
    method EmitI32AtAll(fixups: seq<nat>, value: nat)
      modifies this`istream
      ensures istream == PatchAll(old(istream), fixups, value)
    {
      ghost var start := istream;
      for i := 0 to |fixups|
        invariant istream == PatchAll(start, fixups[..i], value)
      {
        PatchAllConcat(start, fixups[..i], [fixups[i]], value);
        assert fixups[..i + 1] == fixups[..i] + [fixups[i]];
        EmitI32At(fixups[i], value);
      }
      assert fixups[..|fixups|] == fixups;
    }

    method FixupTopLabel()
      requires labelStack != []
      modifies this`istream, this`depthFixups
      ensures istream == PatchAll(old(istream), FixupsAt(old(depthFixups), |labelStack| - 1), |old(istream)|)
      ensures |depthFixups| == |old(depthFixups)|
      ensures forall i: int ::
                FixupsAt(depthFixups, i) == if i == |labelStack| - 1 then [] else FixupsAt(old(depthFixups), i)
    {
      var offset := |istream|;
      var top := |labelStack| - 1;
      if top < |depthFixups| {
        EmitI32AtAll(depthFixups[top], offset);
        depthFixups := depthFixups[top := []];
      }
    }

    method PopLabel()
      requires labelStack != []
      modifies this`labelStack, this`depthFixups
      ensures labelStack == old(labelStack)[..|old(labelStack)| - 1]
      ensures depthFixups == if |old(depthFixups)| > |labelStack| then old(depthFixups)[..|labelStack|]
              else old(depthFixups)
    {
      labelStack := labelStack[..|labelStack| - 1];
      if |depthFixups| > |labelStack| {
        depthFixups := depthFixups[..|labelStack|];
      }
    }

    // ----- Callbacks ---------------------------------------------------------------------------

    method OnBlockExpr(sig: Sig) returns (ok: bool)
      requires Valid() && Safe()
      modifies this
      ensures before <= istream && (ok ==> Safe())
      ensures ok == EnterLabel(old(checker), BlockLabel, sig).Some?
      ensures ok ==> Some(checker) == EnterLabel(old(checker), BlockLabel, sig)
      ensures ok ==> Valid() && Now() == EnterTarget(old(Now()), Target(INVALID, INVALID)) && ctx == old(ctx)
                     && funcOffsets == old(funcOffsets)
    {
      var r := EnterLabel(checker, BlockLabel, sig);
      if r.None? {
        return false;
      }
      EnterEntered(checker, BlockLabel, sig);
      EnterConfined(before, Now(), checker, r.value, Target(INVALID, INVALID), BlockLabel, sig);
      checker := r.value;
      labelStack := labelStack + [Target(INVALID, INVALID)];
      return true;
    }

    method OnLoopExpr(sig: Sig) returns (ok: bool)
      requires Valid() && Safe()
      modifies this
      ensures before <= istream && (ok ==> Safe())
      ensures ok == EnterLabel(old(checker), LoopLabel, sig).Some?
      ensures ok ==> Some(checker) == EnterLabel(old(checker), LoopLabel, sig)
      ensures ok ==> Valid() && Now() == EnterTarget(old(Now()), Target(|old(istream)|, INVALID)) && ctx == old(ctx)
                     && funcOffsets == old(funcOffsets)
    {
      var r := EnterLabel(checker, LoopLabel, sig);
      if r.None? {
        return false;
      }
      EnterEntered(checker, LoopLabel, sig);
      EnterConfined(before, Now(), checker, r.value, Target(|istream|, INVALID), LoopLabel, sig);
      checker := r.value;
      labelStack := labelStack + [Target(|istream|, INVALID)];
      return true;
    }

    method OnIfExpr(sig: Sig) returns (ok: bool)
      requires Valid() && Safe()
      modifies this
      ensures before <= istream && (ok ==> Safe())
      ensures ok == OnIf(old(checker), sig).Some?
      ensures ok ==> Some(checker) == OnIf(old(checker), sig)
      ensures ok ==> Valid() && Now() == EnterIf(old(Now())) && ctx == old(ctx) && funcOffsets == old(funcOffsets)
    {
      hide Confined, Nested, OnIf, Patch;
      ConfinedBase(before, Now(), checker.labels);
      var r := OnIf(checker, sig);
      if r.None? {
        return false;
      }
      IfEntered(checker, sig);
      EnterIfConfined(before, Now(), checker, r.value, sig);
      ConfinedBase(before, EnterIf(Now()), r.value.labels);
      checker := r.value;
      EmitData([Opcode(IBrUnless(0))]);
      var fixup := |istream|;
      EmitData(U32(INVALID));
      labelStack := labelStack + [Target(INVALID, fixup)];
      assert istream == old(istream) + Encode(IBrUnless(INVALID));
      return true;
    }

    method OnElseExpr() returns (ok: bool)
      requires Valid() && Safe()
      modifies this
      ensures before <= istream && (ok ==> Safe())
      ensures ok == OnElse(old(checker)).Some?
      ensures ok ==> Some(checker) == OnElse(old(checker)) && ctx == old(ctx) && funcOffsets == old(funcOffsets)
      ensures ok ==> Now() == Divide(old(Now()))
    {
      hide U32, Patch, OnElse, Encode;
      OpenOperand(IBr(INVALID));
      var r := OnElse(checker);
      if r.None? {
        return false;
      }
      DivideConfined(before, Now(), checker);
      checker := r.value;
      var top := labelStack[|labelStack| - 1];
      EmitData([Opcode(IBr(0))]);
      var fixup := |istream|;
      EmitData(U32(INVALID));
      labelStack := labelStack[|labelStack| - 1 := top.(fixup := fixup)];
      EmitI32At(top.fixup, |istream|);
      assert old(istream) + [Opcode(IBr(0))] + U32(INVALID) == old(istream) + Encode(IBr(INVALID));
      return true;
    }

    method OnEndExpr() returns (ok: bool)
      requires Valid() && Safe()
      modifies this
      ensures before <= istream && (ok ==> Safe())
      ensures ok == OnEnd(old(checker)).Some?
      ensures ok ==> Some(checker) == OnEnd(old(checker)) && ctx == old(ctx) && funcOffsets == old(funcOffsets)
      ensures ok ==> Now() == if old(checker.Top().kind == IfLabel || checker.Top().kind == ElseLabel)
                              then CloseIf(old(Now())) else CloseTarget(old(Now()))
    {
      hide Patch, PatchAll, OnEnd, Nested, Confined;
      ConfinedBase(before, Now(), checker.labels);
      var kind := checker.Top().kind;
      var r := OnEnd(checker);
      if r.None? {
        return false;
      }
      OnEndLeft(checker);
      CloseConfined(before, Now(), checker, r.value);
      ghost var closed := if HasPendingJump(kind) then CloseIf(Now()) else CloseTarget(Now());
      ConfinedBase(before, closed, r.value.labels);
      checker := r.value;
      if kind == IfLabel || kind == ElseLabel {
        EmitI32At(labelStack[|labelStack| - 1].fixup, |istream|);
      }
      FixupTopLabel();
      PopLabel();
      assert forall i :: 0 <= i < |depthFixups| ==> depthFixups[i] == FixupsAt(old(depthFixups), i);
      assert Now() == closed;
      return true;
    }

    method OnOpExpr(op: Op) returns (ok: bool)
      requires Valid() && Safe()
      modifies this
      ensures before <= istream && (ok ==> Safe())
      ensures ok == ElabSimple(old(ctx), old(checker), op).Some?
      ensures ok ==> Valid() && ctx == old(ctx) && funcOffsets == old(funcOffsets)
                     && checker == ElabSimple(old(ctx), old(checker), op).value.tc
      ensures ok ==> Emitted(old(Now()), Now(), ElabSimple(old(ctx), old(checker), op).value.code)
    {
      hide Confined, Nested, OnOp, Emitted, Encode;
      ConfinedBase(before, Now(), checker.labels);
      var r := OnOp(ctx, checker, op);
      if r.None? {
        return false;
      }
      OpFrame(ctx, checker, op);
      var instrs := OpInstrs(ctx, checker, r.value, op);
      AppendConfined(before, Now(), checker.labels, EncodeAll(instrs));
      FrameConfined(before, AppendBytes(Now(), EncodeAll(instrs)), checker, r.value);
      ConfinedBase(before, AppendBytes(Now(), EncodeAll(instrs)), r.value.labels);
      EmitOp(instrs);
      PlainEmitted(old(Now()), instrs);
      checker := r.value;
      return true;
    }

    method OnBrExpr(depth: nat) returns (ok: bool)
      requires Valid() && Safe()
      modifies this
      ensures before <= istream && (ok ==> Safe())
      ensures ok == ElabBr(old(checker), depth).Some?
      ensures ok ==> Valid() && ctx == old(ctx) && funcOffsets == old(funcOffsets)
                     && checker == ElabBr(old(checker), depth).value.tc
      ensures ok ==> Emitted(old(Now()), Now(), ElabBr(old(checker), depth).value.code)
    {
      if depth >= |checker.labels| {
        return false;
      }
      var j := JumpTo(checker, depth);
      var r := OnBr(checker, depth);
      if r.None? {
        return false;
      }
      UnreachableFrame(checker);
      BrConfined(before, Now(), checker.labels, j);
      FrameConfined(before, BrStream(Now(), j), checker, r.value);
      EmitBr(j);
      BrEmitted(old(Now()), j);
      checker := r.value;
      return true;
    }

    /** The inverted jump, the branch it jumps over, and the jump's operand. */
    method EmitBrIf(j: Jump)
      requires j.depth < |labelStack|
      modifies this`istream, this`depthFixups
      ensures Now() == BrIfStream(old(Now()), j)
    {
      hide BrStream, U32, Patch, Encode;
      OpenOperand(IBrUnless(INVALID));
      EmitData([Opcode(IBrUnless(0))]);
      var fixup := |istream|;
      EmitData(U32(INVALID));
      assert istream == old(istream) + Encode(IBrUnless(INVALID));
      EmitBr(j);
      EmitI32At(fixup, |istream|);
    }

    method OnBrIfExpr(depth: nat) returns (ok: bool)
      requires Valid() && Safe()
      modifies this
      ensures before <= istream && (ok ==> Safe())
      ensures ok == ElabBrIf(old(checker), depth).Some?
      ensures ok ==> Valid() && ctx == old(ctx) && funcOffsets == old(funcOffsets)
      ensures ok ==> checker == ElabBrIf(old(checker), depth).value.tc
      ensures ok ==> Emitted(old(Now()), Now(), ElabBrIf(old(checker), depth).value.code)
    {
      hide BrIfStream, Emitted, OnBrIf, Confined, Nested, BrDrop, BrKeep;
      ConfinedBase(before, Now(), checker.labels);
      var r := OnBrIf(checker, depth);
      if r.None? || depth >= |r.value.labels| {
        return false;
      }
      ExprFrame(ctx, checker, BrIf(depth));
      var j := JumpTo(r.value, depth);
      BrIfConfined(before, Now(), checker, r.value, j);
      ConfinedBase(before, BrIfStream(Now(), j), r.value.labels);
      BrIfEmitted(Now(), j);
      checker := r.value;
      EmitBrIf(j);
      return true;
    }

    method EmitTableHeader(n: nat)
      modifies this`istream
      ensures Now() == TableStream(old(Now()), n)
    {
      hide U32, Patch;
      EmitData([Opcode(IBrTable(0, 0))] + U32(n - 1));
      var fixup := |istream|;
      EmitData(U32(INVALID));
      EmitInstr(IData(12 * n));
      assert istream == old(istream) + (Encode(IBrTable(n - 1, INVALID)) + Encode(IData(12 * n)));
      EmitI32At(fixup, |istream|);
    }

    /** Targets are validated and emitted one by one; the first mismatch stops the emission. */
    method EmitTargets(all: seq<nat>) returns (ok: bool)
      requires Valid() && Safe()
      modifies this`istream, this`depthFixups
      ensures before <= istream && (ok ==> Safe())
      ensures ok == CheckTargets(checker, all)
      ensures ok ==> Valid() && EmittedEntries(old(Now()), Now(), JumpsTo(checker, all))
    {
      hide EntryStream, TargetOk, EmittedEntries, BrDrop, BrKeep;
      EntriesStarted(Now());
      ghost var jumps: seq<Jump> := [];
      for i := 0 to |all|
        invariant Valid()
        invariant forall k :: 0 <= k < i ==> TargetOk(checker, all, k)
        invariant |jumps| == i && forall k :: 0 <= k < i
                                    ==> all[k] < |checker.labels| && jumps[k] == JumpTo(checker, all[k])
        invariant EmittedEntries(old(Now()), Now(), jumps) && Safe()
      {
        var depth := all[i];
        if !TargetOk(checker, all, i) {
          return false;
        }
        TargetInRange(checker, all, i);
        var j := JumpTo(checker, depth);
        EntryEmitted(old(Now()), Now(), jumps, j);
        EntryRecorded(old(Now()), Now(), jumps, j);
        EntryConfined(before, Now(), checker.labels, j);
        EmitEntry(j);
        jumps := jumps + [j];
      }
      assert jumps == JumpsTo(checker, all);
      return true;
    }

    method EmitEntry(j: Jump)
      requires j.depth < |labelStack|
      modifies this`istream, this`depthFixups
      ensures Now() == EntryStream(old(Now()), j)
    {
      EmitBrOffset(j.depth);
      EmitData(U32(j.drop));
      EmitData(U32(j.keep));
    }

    method OnBrTableExpr(targets: seq<nat>, default: nat) returns (ok: bool)
      requires Valid() && Safe()
      modifies this
      ensures before <= istream && (ok ==> Safe())
      ensures ok == ElabBrTable(old(checker), targets, default).Some?
      ensures ok ==> Valid() && ctx == old(ctx) && funcOffsets == old(funcOffsets)
                     && checker == ElabBrTable(old(checker), targets, default).value.tc
      ensures ok ==> Emitted(old(Now()), Now(), ElabBrTable(old(checker), targets, default).value.code)
    {
      hide CheckTargets, Emitted, EmittedEntries, TableStream, PopSignature, SetUnreachable, TableHeader;
      var r := PopSignature(checker, [I32]);
      if r.None? {
        return false;
      }
      PopFrame(checker, [I32]);
      UnreachableFrame(r.value);
      FrameConfined(before, Now(), checker, r.value);
      TableConfined(before, Now(), r.value.labels, |targets + [default]|);
      checker := r.value;
      var all := targets + [default];
      TableStarted(old(Now()), |all|);
      EmitTableHeader(|all|);
      ok := EmitTargets(all);
      if ok {
        TableEmitted(old(Now()), Now(), JumpsTo(checker, all));
        FrameConfined(before, Now(), checker, SetUnreachable(checker));
        checker := SetUnreachable(checker);
      }
    }

    method OnReturnExpr() returns (ok: bool)
      requires Valid() && Safe()
      modifies this
      ensures before <= istream && (ok ==> Safe())
      ensures ok == ElabReturn(old(ctx), old(checker)).Some?
      ensures ok ==> Valid() && ctx == old(ctx) && funcOffsets == old(funcOffsets)
                     && checker == ElabReturn(old(ctx), old(checker)).value.tc
      ensures ok ==> Emitted(old(Now()), Now(), ElabReturn(old(ctx), old(checker)).value.code)
    {
      var drop, keep := ReturnDrop(ctx, checker), BrKeep(checker, |checker.labels| - 1);
      var r := OnReturn(checker);
      if r.None? {
        return false;
      }
      ExprFrame(ctx, checker, Return);
      PlainEmitted(old(Now()), ReturnInstrs(ctx, checker));
      EncodeSnoc(DropKeepInstrs(drop, keep), IReturn);
      AppendConfined(before, Now(), checker.labels, EncodeAll(ReturnInstrs(ctx, checker)));
      FrameConfined(before, AppendBytes(Now(), EncodeAll(ReturnInstrs(ctx, checker))), checker, r.value);
      checker := r.value;
      EmitDropKeep(drop, keep);
      EmitInstr(IReturn);
      assert old(istream) + EncodeAll(DropKeepInstrs(drop, keep)) + Encode(IReturn)
          == old(istream) + (EncodeAll(DropKeepInstrs(drop, keep)) + Encode(IReturn));
      return true;
    }

    method OnUnreachableExpr() returns (ok: bool)
      requires Valid() && Safe()
      modifies this
      ensures before <= istream && (ok ==> Safe())
      ensures ok && Valid() && ctx == old(ctx) && funcOffsets == old(funcOffsets)
              && checker == SetUnreachable(old(checker))
      ensures Emitted(old(Now()), Now(), Plain([IUnreachable]))
    {
      UnreachableFrame(checker);
      AppendConfined(before, Now(), checker.labels, Encode(IUnreachable));
      FrameConfined(before, AppendBytes(Now(), Encode(IUnreachable)), checker, SetUnreachable(checker));
      checker := SetUnreachable(checker);
      EmitInstr(IUnreachable);
      PlainEmitted(old(Now()), [IUnreachable]);
      assert EncodeAll([IUnreachable]) == Encode(IUnreachable);
      return true;
    }

    method OnCallExpr(f: nat) returns (ok: bool)
      requires Valid() && Safe()
      modifies this
      ensures before <= istream && (ok ==> Safe())
      ensures ok == ElabCall(old(ctx), old(checker), f).Some?
      ensures ok ==> Valid() && ctx == old(ctx) && funcOffsets == old(funcOffsets)
                     && checker == ElabCall(old(ctx), old(checker), f).value.tc
      ensures ok ==> Emitted(old(Now()), Now(), ElabCall(old(ctx), old(checker), f).value.code)
    {
      var r := OnCall(ctx, checker, f);
      if r.None? {
        return false;
      }
      ExprFrame(ctx, checker, Call(f));
      AppendConfined(before, Now(), checker.labels, [Opcode(ICall(0))]);
      CallConfined(before, AppendBytes(Now(), [Opcode(ICall(0))]), checker.labels, f);
      FrameConfined(before, CallOffset(AppendBytes(Now(), [Opcode(ICall(0))]), f), checker, r.value);
      checker := r.value;
      EmitData([Opcode(ICall(0))]);
      EmitFuncOffset(f);
      CallEmitted(old(Now()), f);
      return true;
    }

    // ----- The binary reader's callback order --------------------------------------------------

    /** `begin ... end` of a block or loop body, and of the last branch of an `if`. */
    method ReadBody(body: ExprList) returns (ok: bool)
      requires Valid() && Safe()
      modifies this
      ensures before <= istream && (ok ==> Safe())
      ensures ok == ElabBody(old(ctx), Some(old(checker)), body).Some?
      ensures ok ==> ctx == old(ctx) && funcOffsets == old(funcOffsets)
      ensures ok ==> checker == ElabBody(old(ctx), Some(old(checker)), body).value.tc
      ensures ok ==> |labelStack| + 1 == |old(checker).labels| && Now().Wf() && |checker.labels| == |labelStack|
      ensures ok ==>
        var c := ElabBody(old(ctx), Some(old(checker)), body).value.code;
        |old(istream)| + SizeList(c) < INVALID ==>
          exists s: Stream :: s.labels != [] && EmittedList(old(Now()), s, c)
            && Now() == if old(checker.Top().kind == IfLabel || checker.Top().kind == ElseLabel) then CloseIf(s)
               else CloseTarget(s)
      decreases body, 1
    {
      hide OnEnd;
      ok := ReadList(body);
      if !ok {
        return;
      }
      ListFrame(ctx, old(checker), body);
      ghost var s := Now();
      ghost var tc := checker;
      ok := OnEndExpr();
      if ok {
        OnEndLeft(tc);
      }
    }

    method ReadList(es: ExprList) returns (ok: bool)
      requires Valid() && Safe()
      modifies this
      ensures before <= istream && (ok ==> Safe())
      ensures ok == ElabList(old(ctx), old(checker), es).Some?
      ensures ok ==> Valid() && ctx == old(ctx) && funcOffsets == old(funcOffsets)
      ensures ok ==> checker == ElabList(old(ctx), old(checker), es).value.tc
      ensures ok ==>
        var c := ElabList(old(ctx), old(checker), es).value.code;
        |old(istream)| + SizeList(c) < INVALID ==> EmittedList(old(Now()), Now(), c)
      decreases es, 0
    {
      hide Emitted, EmittedList, ElabExpr;
      match es
      case Nil =>
        EmittedNil(Now());
        ok := true;
      case Cons(e, rest) =>
        ok := ReadExpr(e);
        if !ok {
          return;
        }
        ghost var s := Now();
        ok := ReadList(rest);
        if ok {
          ghost var h := ElabExpr(ctx, old(checker), e).value;
          ghost var t := ElabList(ctx, h.tc, rest).value.code;
          if |old(istream)| + Size(h.code) + SizeList(t) < INVALID {
            EmittedSize(old(Now()), s, h.code);
            EmittedCons(old(Now()), s, Now(), h.code, t);
          }
        }
    }

    method ReadExpr(e: Expr) returns (ok: bool)
      requires Valid() && Safe()
      modifies this
      ensures before <= istream && (ok ==> Safe())
      ensures ok == ElabExpr(old(ctx), old(checker), e).Some?
      ensures ok ==> Valid() && ctx == old(ctx) && funcOffsets == old(funcOffsets)
      ensures ok ==> checker == ElabExpr(old(ctx), old(checker), e).value.tc
      ensures ok ==>
        var c := ElabExpr(old(ctx), old(checker), e).value.code;
        |old(istream)| + Size(c) < INVALID ==> Emitted(old(Now()), Now(), c)
      decreases e, 0
    {
      hide Emitted, EmittedList;
      match e
      case Simple(op) => ok := OnOpExpr(op);
      case Block(sig, body) => ok := ReadBlock(sig, body);
      case Loop(sig, body) => ok := ReadLoop(sig, body);
      case If(sig, thn, hasElse, els) =>
        if hasElse {
          ok := ReadIfElse(sig, thn, els);
        } else {
          ok := ReadIf(sig, thn);
        }
      case Br(d) => ok := OnBrExpr(d);
      case BrIf(d) => ok := OnBrIfExpr(d);
      case BrTable(targets, default) => ok := OnBrTableExpr(targets, default);
      case Return => ok := OnReturnExpr();
      case Call(f) => ok := OnCallExpr(f);
      case Unreachable => ok := OnUnreachableExpr();
    }

    method ReadBlock(sig: Sig, body: ExprList) returns (ok: bool)
      requires Valid() && Safe()
      modifies this
      ensures before <= istream && (ok ==> Safe())
      ensures ok == ElabExpr(old(ctx), old(checker), Block(sig, body)).Some?
      ensures ok ==> Valid() && ctx == old(ctx) && funcOffsets == old(funcOffsets)
      ensures ok ==> checker == ElabExpr(old(ctx), old(checker), Block(sig, body)).value.tc
      ensures ok ==>
        var c := ElabExpr(old(ctx), old(checker), Block(sig, body)).value.code;
        |old(istream)| + Size(c) < INVALID ==> Emitted(old(Now()), Now(), c)
      decreases body, 2
    {
      hide Emitted, EmittedList, EnterLabel, CloseTarget, CloseIf;
      ok := OnBlockExpr(sig);
      if !ok {
        return;
      }
      EnterEntered(old(checker), BlockLabel, sig);
      ghost var tc1 := checker;
      ok := ReadBody(body);
      if ok {
        BodyFrame(ctx, old(checker), tc1, BlockLabel, sig, body);
        ghost var c := ElabBody(ctx, Some(tc1), body).value.code;
        if |old(istream)| + SizeList(c) < INVALID {
          ghost var s: Stream :| s.labels != [] && EmittedList(EnterTarget(old(Now()), Target(INVALID, INVALID)), s, c)
            && Now() == CloseTarget(s);
          BlockEmitted(old(Now()), s, c);
        }
      }
    }

    method ReadLoop(sig: Sig, body: ExprList) returns (ok: bool)
      requires Valid() && Safe()
      modifies this
      ensures before <= istream && (ok ==> Safe())
      ensures ok == ElabExpr(old(ctx), old(checker), Loop(sig, body)).Some?
      ensures ok ==> Valid() && ctx == old(ctx) && funcOffsets == old(funcOffsets)
      ensures ok ==> checker == ElabExpr(old(ctx), old(checker), Loop(sig, body)).value.tc
      ensures ok ==>
        var c := ElabExpr(old(ctx), old(checker), Loop(sig, body)).value.code;
        |old(istream)| + Size(c) < INVALID ==> Emitted(old(Now()), Now(), c)
      decreases body, 2
    {
      hide Emitted, EmittedList, EnterLabel, CloseTarget, CloseIf;
      ok := OnLoopExpr(sig);
      if !ok {
        return;
      }
      EnterEntered(old(checker), LoopLabel, sig);
      ghost var tc1 := checker;
      ok := ReadBody(body);
      if ok {
        BodyFrame(ctx, old(checker), tc1, LoopLabel, sig, body);
        ghost var c := ElabBody(ctx, Some(tc1), body).value.code;
        if |old(istream)| + SizeList(c) < INVALID {
          ghost var s: Stream :| s.labels != []
            && EmittedList(EnterTarget(old(Now()), Target(|old(istream)|, INVALID)), s, c) && Now() == CloseTarget(s);
          LoopEmitted(old(Now()), s, c);
        }
      }
    }

    method ReadIf(sig: Sig, thn: ExprList) returns (ok: bool)
      requires Valid() && Safe()
      modifies this
      ensures before <= istream && (ok ==> Safe())
      ensures ok == ElabExpr(old(ctx), old(checker), If(sig, thn, false, Nil)).Some?
      ensures ok ==> Valid() && ctx == old(ctx) && funcOffsets == old(funcOffsets)
      ensures ok ==> checker == ElabExpr(old(ctx), old(checker), If(sig, thn, false, Nil)).value.tc
      ensures ok ==>
        var c := ElabExpr(old(ctx), old(checker), If(sig, thn, false, Nil)).value.code;
        |old(istream)| + Size(c) < INVALID ==> Emitted(old(Now()), Now(), c)
      decreases thn, 2
    {
      hide Emitted, EmittedList, OnIf, CloseTarget, CloseIf, EnterIf;
      ok := OnIfExpr(sig);
      if !ok {
        return;
      }
      IfEntered(old(checker), sig);
      ghost var tc1 := checker;
      ok := ReadBody(thn);
      if ok {
        BodyFrame(ctx, old(checker), tc1, IfLabel, sig, thn);
        ghost var c := ElabBody(ctx, Some(tc1), thn).value.code;
        if |old(istream)| + (5 + SizeList(c)) < INVALID {
          EnterIfSize(old(Now()));
          ghost var s: Stream :| s.labels != [] && EmittedList(EnterIf(old(Now())), s, c) && Now() == CloseIf(s);
          IfEmitted(old(Now()), s, c);
        }
      }
    }

    /** The first branch of an `if` up to and including its `else`. */
    method ReadThen(sig: Sig, thn: ExprList) returns (ok: bool, ghost s2: Stream)
      requires Valid() && Safe()
      modifies this
      ensures before <= istream && (ok ==> Valid() && Safe())
      ensures ok == ElabThen(old(ctx), OnIf(old(checker), sig), thn).Some?
      ensures ok ==> ctx == old(ctx) && funcOffsets == old(funcOffsets) && old(Wf(checker))
                     && checker == ElabThen(old(ctx), OnIf(old(checker), sig), thn).value.tc
                     && Entered(old(checker), checker, ElseLabel, sig)
      ensures ok ==>
        var c := ElabThen(old(ctx), OnIf(old(checker), sig), thn).value.code;
        && s2.labels != [] && Now() == Divide(s2)
        && (|old(istream)| + 5 + SizeList(c) < INVALID ==> EmittedList(EnterIf(old(Now())), s2, c))
      decreases thn, 2
    {
      hide Emitted, EmittedList, OnIf, OnElse, EnterIf, Divide, ElabList, Confined, Nested, Entered, Frame;
      s2 := Now();
      ok := OnIfExpr(sig);
      if !ok {
        return;
      }
      IfEntered(old(checker), sig);
      ghost var tc1 := checker;
      EnterIfSize(old(Now()));
      ok := ReadList(thn);
      if !ok {
        return;
      }
      ListFrame(ctx, tc1, thn);
      s2 := Now();
      ok := OnElseExpr();
      if ok {
        ThenEntered(ctx, old(checker), tc1, sig, thn);
        EnteredWf(old(checker), checker, ElseLabel, sig);
        DivideShape(s2);
        ElseLabels(ElabList(ctx, tc1, thn).value.tc);
      }
    }

    lemma EnteredWf(tc: Checker, tc': Checker, kind: Kind, sig: Sig)
      requires Entered(tc, tc', kind, sig)
      ensures Wf(tc) && Wf(tc') && tc'.Top().kind == kind
    {
    }

    method ReadIfElse(sig: Sig, thn: ExprList, els: ExprList) returns (ok: bool)
      requires Valid() && Safe()
      modifies this
      ensures before <= istream && (ok ==> Safe())
      ensures ok == ElabExpr(old(ctx), old(checker), If(sig, thn, true, els)).Some?
      ensures ok ==> Valid() && ctx == old(ctx) && funcOffsets == old(funcOffsets)
      ensures ok ==> checker == ElabExpr(old(ctx), old(checker), If(sig, thn, true, els)).value.tc
      ensures ok ==>
        var c := ElabExpr(old(ctx), old(checker), If(sig, thn, true, els)).value.code;
        |old(istream)| + Size(c) < INVALID ==> Emitted(old(Now()), Now(), c)
      decreases If(sig, thn, true, els), -1
    {
      hide Emitted, EmittedList, OnIf, CloseTarget, CloseIf, EnterIf, Divide, ElabThen, ElabBody, Confined, Nested,
           Entered;
      ghost var s2;
      ok, s2 := ReadThen(sig, thn);
      if !ok {
        return;
      }
      ghost var c := ElabThen(ctx, OnIf(old(checker), sig), thn).value.code;
      ghost var tc3 := checker;
      EnteredWf(old(checker), tc3, ElseLabel, sig);
      DivideShape(s2);
      ok := ReadBody(els);
      if ok {
        BodyFrame(ctx, old(checker), tc3, ElseLabel, sig, els);
        ghost var d := ElabBody(ctx, Some(tc3), els).value.code;
        if |old(istream)| + (5 + SizeList(c) + (5 + SizeList(d))) < INVALID {
          EnterIfSize(old(Now()));
          EmittedListSize(EnterIf(old(Now())), s2, c);
          ghost var s: Stream :| s.labels != [] && EmittedList(Divide(s2), s, d) && Now() == CloseIf(s);
          IfElseEmitted(old(Now()), s2, s, c, d);
        }
      }
    }

    // ----- Functions ---------------------------------------------------------------------------

    /** `OnFunctionCount`: every function's offset is unknown, nothing is recorded. */
    constructor (m: Module, start: seq<Byte>)
      ensures mod == m && istream == before == start && FunctionsSafe()
      ensures |funcOffsets| == |m.funcs| && Progress(start, istream, funcOffsets, funcFixups, [])
    {
      mod := m;
      istream, before := start, start;
      labelStack, depthFixups := [], [];
      funcFixups, funcOffsets := seq(|m.funcs|, _ => []), seq(|m.funcs|, _ => INVALID);
      checker := Checker([], []);
      ctx := Ctx([], [], []);
    }

    method BeginFunctionBody(f: nat)
      requires f < |mod.funcs| == |funcOffsets| == |funcFixups| && FunctionsSafe()
      modifies this
      ensures Safe()
      ensures istream == PatchAll(old(istream), old(funcFixups)[f], |old(istream)|)
      ensures funcOffsets == old(funcOffsets)[f := |old(istream)|] && funcFixups == old(funcFixups)
      ensures labelStack == [Target(INVALID, INVALID)] && depthFixups == []
      ensures checker == BeginFunction(mod.funcs[f].sig.results)
      ensures ctx == CtxOf(mod, f).(locals := mod.funcs[f].sig.params)
    {
      PatchAllKeeps(before, istream, funcFixups[f], |istream|);
      funcOffsets := funcOffsets[f := |istream|];
      depthFixups, labelStack := [], [];
      EmitI32AtAll(funcFixups[f], |istream|);
      ctx := CtxOf(mod, f).(locals := mod.funcs[f].sig.params);
      checker := BeginFunction(mod.funcs[f].sig.results);
      labelStack := [Target(INVALID, INVALID)];
    }

    /** `OnLocalDecl` for each declaration in turn; the last one also allocates. */
    method ReadLocalDecls(decls: seq<LocalDecl>)
      modifies this`istream, this`ctx
      ensures ctx == old(ctx).(locals := old(ctx).locals + DeclTypes(decls))
      ensures Now() == AppendBytes(old(Now()), EncodeAll(AllocaInstrs(decls)))
    {
      var count := 0;
      for k := 0 to |decls|
        invariant count + LocalCount(decls[k..]) == LocalCount(decls)
        invariant ctx == old(ctx).(locals := ctx.locals)
        invariant ctx.locals + DeclTypes(decls[k..]) == old(ctx).locals + DeclTypes(decls)
        invariant Now() == if k == |decls| then AppendBytes(old(Now()), EncodeAll(AllocaInstrs(decls))) else old(Now())
      {
        assert decls[k..][0] == decls[k] && decls[k..][1..] == decls[k + 1..];
        count := count + decls[k].count;
        ctx := ctx.(locals := ctx.locals + seq(decls[k].count, _ => decls[k].ty));
        if k == |decls| - 1 {
          assert EncodeAll([IAlloca(count)]) == Encode(IAlloca(count)) + EncodeAll([]);
          EmitInstr(IAlloca(count));
        }
      }
    }

    method EndFunctionBody() returns (ok: bool)
      requires Valid() && Safe()
      modifies this
      ensures FunctionsSafe()
      ensures ok == EndFunction(old(checker)).Some?
      ensures funcOffsets == old(funcOffsets) && funcFixups == old(funcFixups)
      ensures ok ==> istream == PatchAll(old(istream), FixupsAt(old(depthFixups), |old(labelStack)| - 1),
                                         |old(istream)|)
                                + EncodeAll(ReturnInstrs(old(ctx), old(checker)))
    {
      hide Patch, PatchAll, EndFunction, AllFrom, JumpsFrom, Nested, DropKeepInstrs, Encode;
      FromAt(depthFixups, |labelStack| - 1, |before|);
      PatchAllKeeps(before, istream, FixupsAt(depthFixups, |labelStack| - 1), |istream|);
      FixupTopLabel();
      var drop, keep := ReturnDrop(ctx, checker), BrKeep(checker, |checker.labels| - 1);
      if EndFunction(checker).None? {
        return false;
      }
      EncodeSnoc(DropKeepInstrs(drop, keep), IReturn);
      ghost var patched := istream;
      EmitDropKeep(drop, keep);
      EmitInstr(IReturn);
      assert patched + EncodeAll(DropKeepInstrs(drop, keep)) + Encode(IReturn)
          == patched + (EncodeAll(DropKeepInstrs(drop, keep)) + Encode(IReturn));
      PopLabel();
      return true;
    }

    /** One function body, from `BeginFunctionBody` to `EndFunctionBody`. */
    method ReadFunction(f: nat, ghost base: seq<Byte>, ghost cs: seq<FuncCode>) returns (ok: bool)
      requires f < |mod.funcs| == |funcOffsets| == |funcFixups| && |cs| == f && FunctionsSafe()
      modifies this
      ensures before <= istream && (ok ==> FunctionsSafe())
      ensures ok ==> |mod.funcs| == |funcOffsets| == |funcFixups|
      ensures ok == ElabFunc(mod, f).Some?
      ensures ok && old(Progress(base, istream, funcOffsets, funcFixups, cs))
              && |old(istream)| + FuncSize(ElabFunc(mod, f).value) < INVALID ==>
              Progress(base, istream, funcOffsets, funcFixups, cs + [ElabFunc(mod, f).value])
    {
      hide Progress, EmittedList, FixupsGrown, Begun, PatchAll, Patch, EncodeAll, ElabList, ReturnInstrs, GenFunc,
           EndFunction;
      var fn := mod.funcs[f];
      BeginFunctionBody(f);
      ghost var pre := istream;
      ghost var begun := old(Progress(base, istream, funcOffsets, funcFixups, cs));
      if begun {
        ProgressBegun(base, old(istream), old(funcOffsets), funcFixups, cs);
      }
      AppendConfined(before, Now(), checker.labels, EncodeAll(AllocaInstrs(fn.decls)));
      ReadLocalDecls(fn.decls);
      assert ctx == CtxOf(mod, f);
      ghost var s0 := Now();
      ok := ReadList(fn.body);
      if !ok {
        return;
      }
      ghost var s1 := Now();
      ListFrame(ctx, BeginFunction(fn.sig.results), fn.body);
      ok := EndFunctionBody();
      if ok {
        ghost var c := ElabFunc(mod, f).value;
        if begun && |pre| + FuncSize(c) < INVALID {
          FuncEmitted(pre, s0, s1, c);
          FuncGrown(pre, s0, s1, c, f);
          FuncProgress(base, pre, funcOffsets, s0.funcFixups, s1.funcFixups, cs, c);
        }
      }
    }

    /** All bodies: the stream ends with the linked module, and every offset is where its function
        starts. */
    method ReadModule() returns (ok: bool)
      requires |funcOffsets| == |mod.funcs| && Progress(istream, istream, funcOffsets, funcFixups, [])
               && FunctionsSafe()
      modifies this
      ensures before <= istream
      ensures ok == ElabFuncs(mod, |mod.funcs|).Some?
      ensures ok ==>
        var cs := ElabFuncs(mod, |mod.funcs|).value;
        |old(istream)| + |Link(cs, |old(istream)|)| < INVALID ==>
          && istream == old(istream) + Link(cs, |old(istream)|)
          && funcOffsets == FuncOffsets(cs, |old(istream)|)
    {
      hide Link, Progress, ElabFunc, FuncSize;
      assert |funcFixups| == |funcOffsets| by {
        ProgressShape(istream, istream, funcOffsets, funcFixups, []);
      }
      ghost var base := istream;
      ghost var cs: seq<FuncCode> := [];
      var f := 0;
      while f < |mod.funcs|
        invariant 0 <= f <= |mod.funcs| == |funcOffsets| == |funcFixups| && FunctionsSafe()
        invariant ElabFuncs(mod, f) == Some(cs)
        invariant FuncPos(cs, |base|, f) < INVALID ==> Progress(base, istream, funcOffsets, funcFixups, cs)
      {
        if FuncPos(cs, |base|, f) < INVALID {
          ProgressShape(base, istream, funcOffsets, funcFixups, cs);
        }
        ok := ReadFunction(f, base, cs);
        ghost var r := ElabFunc(mod, f);
        if !ok {
          assert ElabFuncs(mod, f + 1).None?;
          ElabFuncsNone(mod, f + 1, |mod.funcs|);
          return;
        }
        FuncPosPrefix(cs, r.value, |base|, f);
        cs := cs + [r.value];
        f := f + 1;
      }
      LinkSize(cs, |base|);
      if FuncPos(cs, |base|, |cs|) < INVALID {
        ProgressLinked(base, istream, funcOffsets, funcFixups, cs);
      }
      return true;
    }
  }
}
