/** What one-pass emission leaves behind: the stream so far with `INVALID` in every operand whose
    target is still ahead, and the fixup lists that remember where those operands are. */
module Emission {
  import opened Syntax
  import opened TypeChecker
  import opened Bytecode
  import opened Elaborate
  import opened Layout

  /** `offset` is known only for loops; `fixup` is where an `if` has its pending jump. */
  datatype Target = Target(offset: nat, fixup: nat)

  datatype Stream = Stream(
    istream: seq<Byte>,
    labels: seq<Target>,
    depthFixups: seq<seq<nat>>,
    funcFixups: seq<seq<nat>>,
    offsets: seq<nat>)
  {
    predicate Wf() {
      |depthFixups| <= |labels| && |funcFixups| == |offsets|
    }
  }

  function Offsets(labels: seq<Target>): (r: seq<nat>)
    ensures |r| == |labels| && forall i :: 0 <= i < |r| ==> r[i] == labels[i].offset
  {
    seq(|labels|, i requires 0 <= i < |labels| => labels[i].offset)
  }

  function EnvOf(s: Stream): Env {
    Env(Offsets(s.labels), s.offsets)
  }

  /** The fixup vectors only reach as far as something was recorded. */
  function FixupsAt(fixups: seq<seq<nat>>, i: int): seq<nat> {
    if 0 <= i < |fixups| then fixups[i] else []
  }

  /** Only operands of unknown targets are recorded. */
  function Open(offset: nat, holes: seq<nat>): seq<nat> {
    if offset == INVALID then holes else []
  }

  predicate Recorded(s0: Stream, s1: Stream) {
    && s1.labels == s0.labels
    && s1.offsets == s0.offsets
    && s0.Wf()
    && s1.Wf()
  }

  /** From `s0` to `s1` exactly the code `c` was emitted and exactly its open operands recorded. */
  predicate EmittedList(s0: Stream, s1: Stream, c: CodeList) {
    && Recorded(s0, s1)
    && s1.istream == s0.istream + GenList(EnvOf(s0), c, |s0.istream|)
    && (forall i :: 0 <= i < |s0.labels| ==>
          FixupsAt(s1.depthFixups, i) == FixupsAt(s0.depthFixups, i)
            + Open(s0.labels[i].offset, HolesList(c, |s0.istream|, |s0.labels|, LabelRef(i))))
    && (forall f :: 0 <= f < |s0.offsets| ==>
          FixupsAt(s1.funcFixups, f) == FixupsAt(s0.funcFixups, f)
            + Open(s0.offsets[f], HolesList(c, |s0.istream|, |s0.labels|, FuncRef(f))))
  }

  predicate Emitted(s0: Stream, s1: Stream, c: Code) {
    && Recorded(s0, s1)
    && s1.istream == s0.istream + Gen(EnvOf(s0), c, |s0.istream|)
    && (forall i :: 0 <= i < |s0.labels| ==>
          FixupsAt(s1.depthFixups, i) == FixupsAt(s0.depthFixups, i)
            + Open(s0.labels[i].offset, Holes(c, |s0.istream|, |s0.labels|, LabelRef(i))))
    && (forall f :: 0 <= f < |s0.offsets| ==>
          FixupsAt(s1.funcFixups, f) == FixupsAt(s0.funcFixups, f)
            + Open(s0.offsets[f], Holes(c, |s0.istream|, |s0.labels|, FuncRef(f))))
  }

  lemma EmittedNil(s: Stream)
    requires s.Wf()
    ensures EmittedList(s, s, CNil)
  {
  }

  lemma OpenJoin(before: seq<nat>, offset: nat, a: seq<nat>, b: seq<nat>)
    ensures (before + Open(offset, a)) + Open(offset, b) == before + Open(offset, a + b)
  {
  }

  lemma SameEnv(s0: Stream, s1: Stream)
    requires Recorded(s0, s1)
    ensures EnvOf(s1) == EnvOf(s0)
  {
  }

  lemma EmittedCons(s0: Stream, s1: Stream, s2: Stream, h: Code, t: CodeList)
    requires Emitted(s0, s1, h) && EmittedList(s1, s2, t)
    ensures EmittedList(s0, s2, CCons(h, t))
  {
    hide Gen, Holes, Offsets, FixupsAt, Open, EnvOf;
    GenSize(EnvOf(s0), h, |s0.istream|);
    SameEnv(s0, s1);
    forall i | 0 <= i < |s0.labels|
      ensures FixupsAt(s2.depthFixups, i) == FixupsAt(s0.depthFixups, i)
              + Open(s0.labels[i].offset, HolesList(CCons(h, t), |s0.istream|, |s0.labels|, LabelRef(i)))
    {
      OpenJoin(FixupsAt(s0.depthFixups, i), s0.labels[i].offset, Holes(h, |s0.istream|, |s0.labels|, LabelRef(i)),
               HolesList(t, |s1.istream|, |s0.labels|, LabelRef(i)));
    }
    forall f | 0 <= f < |s0.offsets|
      ensures FixupsAt(s2.funcFixups, f) == FixupsAt(s0.funcFixups, f)
              + Open(s0.offsets[f], HolesList(CCons(h, t), |s0.istream|, |s0.labels|, FuncRef(f)))
    {
      OpenJoin(FixupsAt(s0.funcFixups, f), s0.offsets[f], Holes(h, |s0.istream|, |s0.labels|, FuncRef(f)),
               HolesList(t, |s1.istream|, |s0.labels|, FuncRef(f)));
    }
    assert (s0.istream + Gen(EnvOf(s0), h, |s0.istream|)) + GenList(EnvOf(s0), t, |s1.istream|)
        == s0.istream + GenList(EnvOf(s0), CCons(h, t), |s0.istream|);
  }

  function EnterTarget(s: Stream, t: Target): Stream {
    s.(labels := s.labels + [t])
  }

  function AppendBytes(s: Stream, bytes: seq<Byte>): Stream {
    s.(istream := s.istream + bytes)
  }

  /** `FixupTopLabel` and `PopLabel`. */
  function CloseTarget(s: Stream): Stream
    requires s.labels != []
  {
    var n := |s.labels| - 1;
    s.(istream := PatchAll(s.istream, FixupsAt(s.depthFixups, n), |s.istream|),
       labels := s.labels[..n],
       depthFixups := if |s.depthFixups| > n then s.depthFixups[..n] else s.depthFixups)
  }

  /** `end` of an `if`: its pending jump lands here. */
  function CloseIf(s: Stream): Stream
    requires s.labels != []
  {
    CloseTarget(s.(istream := Patch(s.istream, s.labels[|s.labels| - 1].fixup, |s.istream|)))
  }

  /** `else`: a jump over the false branch, which starts behind it. */
  function Divide(s: Stream): Stream
    requires s.labels != []
  {
    var top := s.labels[|s.labels| - 1];
    var istream := s.istream + Encode(IBr(INVALID));
    s.(istream := Patch(istream, top.fixup, |istream|),
       labels := s.labels[|s.labels| - 1 := top.(fixup := |s.istream| + 1)])
  }

  lemma EnterEnv(s: Stream, t: Target)
    ensures EnvOf(EnterTarget(s, t)) == Inside(EnvOf(s), t.offset)
  {
    assert Offsets(s.labels + [t]) == Offsets(s.labels) + [t.offset];
  }

  /** Popping a label changes nothing below it. */
  lemma ClosedBelow(s: Stream)
    requires s.Wf() && s.labels != []
    ensures var n, r := |s.labels| - 1, CloseTarget(s);
            && r.Wf() && r.labels == s.labels[..n] && r.offsets == s.offsets && r.funcFixups == s.funcFixups
            && forall i :: 0 <= i < n ==> FixupsAt(r.depthFixups, i) == FixupsAt(s.depthFixups, i)
  {
    hide PatchAll;
  }

  /** A label of its own has recorded exactly the holes of its body. */
  lemma OwnHoles(s0: Stream, fixup: nat, s2: Stream, body: CodeList)
    requires s0.Wf() && EmittedList(EnterTarget(s0, Target(INVALID, fixup)), s2, body)
    ensures var n := |s0.labels|; FixupsAt(s2.depthFixups, n) == HolesList(body, |s0.istream|, n + 1, LabelRef(n))
    ensures s2.labels == s0.labels + [Target(INVALID, fixup)] && s2.offsets == s0.offsets && s2.Wf()
    ensures s2.labels[..|s0.labels|] == s0.labels
  {
    hide GenList, HolesList, EnvOf;
    assert FixupsAt(s0.depthFixups, |s0.labels|) == [];
    assert (s0.labels + [Target(INVALID, fixup)])[..|s0.labels|] == s0.labels;
  }

  lemma BlockEmitted(s0: Stream, s2: Stream, body: CodeList)
    requires s0.Wf() && EmittedList(EnterTarget(s0, Target(INVALID, INVALID)), s2, body)
    ensures Emitted(s0, CloseTarget(s2), BlockCode(body))
  {
    hide GenList, HolesList, EnvOf, PatchAll, SizeList, FixupsAt;
    OwnHoles(s0, INVALID, s2, body);
    ClosedBelow(s2);
    var n, pos := |s0.labels|, |s0.istream|;
    var end := pos + SizeList(body);
    var env := Inside(EnvOf(s0), INVALID);
    EnterEnv(s0, Target(INVALID, INVALID));
    GenListSize(env, body, pos);
    EnvSize(s0);
    AssignOwn(EnvOf(s0), INVALID, end);
    PatchGenList(s0.istream, env, body, [], LabelRef(n), end);
    assert s0.istream + GenList(env, body, pos) + [] == s2.istream;
  }

  lemma EnvSize(s: Stream)
    ensures |EnvOf(s).labels| == |s.labels|
  {
  }

  lemma AssignOwn(env: Env, target: nat, v: nat)
    ensures Assign(Inside(env, target), LabelRef(|env.labels|), v) == Inside(env, v)
    ensures Known(Inside(env, target), LabelRef(|env.labels|))
  {
    assert (env.labels + [target])[|env.labels| := v] == env.labels + [v];
  }

  lemma LoopEmitted(s0: Stream, s2: Stream, body: CodeList)
    requires s0.Wf() && EmittedList(EnterTarget(s0, Target(|s0.istream|, INVALID)), s2, body)
    requires |s0.istream| < INVALID
    ensures Emitted(s0, CloseTarget(s2), LoopCode(body))
  {
    hide GenList, HolesList, Offsets, Patch;
    EnterEnv(s0, Target(|s0.istream|, INVALID));
  }

  /** A pending jump followed by a list whose own label is about to be resolved: the jump's operand
      is set to `to`, the label's holes to `end`. */
  lemma ResolveGuarded(pre: seq<Byte>, env: Env, i: Instr, i': Instr, c: CodeList, post: seq<Byte>, end: nat)
    requires OneOperand(i) && OneOperand(i') && Opcode(i) == Opcode(i')
    ensures var t := GenList(Inside(env, INVALID), c, |pre| + 5);
            var t' := GenList(Inside(env, end), c, |pre| + 5);
            var h := HolesList(c, |pre| + 5, |env.labels| + 1, LabelRef(|env.labels|));
            && Patch(pre + (Encode(i) + t) + post, |pre| + 1, Operands(i')[0]) == pre + (Encode(i') + t) + post
            && PatchAll(pre + (Encode(i') + t) + post, h, end) == pre + (Encode(i') + t') + post
  {
    hide GenList, HolesList, PatchAll, Patch, Encode, Assign;
    var t := GenList(Inside(env, INVALID), c, |pre| + 5);
    var t' := GenList(Inside(env, end), c, |pre| + 5);
    var g := Encode(i');
    assert pre + (Encode(i) + t) + post == pre + Encode(i) + (t + post);
    PatchOperand(pre, i, i', t + post);
    assert pre + g + (t + post) == pre + (g + t) + post;
    AssignOwn(env, INVALID, end);
    PatchGenList(pre + g, Inside(env, INVALID), c, post, LabelRef(|env.labels|), end);
    PatchBehind(pre, g, t, t', post, HolesList(c, |pre| + 5, |env.labels| + 1, LabelRef(|env.labels|)), end);
  }

  function EnterIf(s: Stream): Stream {
    EnterTarget(AppendBytes(s, Encode(IBrUnless(INVALID))), Target(INVALID, |s.istream| + 1))
  }

  lemma IfEmitted(s0: Stream, s2: Stream, thn: CodeList)
    requires s0.Wf() && EmittedList(EnterIf(s0), s2, thn)
    ensures Emitted(s0, CloseIf(s2), IfCode(thn))
  {
    hide GenList, HolesList, Offsets, PatchAll, Patch, SizeList, Encode;
    var n, pos, env := |s0.labels|, |s0.istream|, EnvOf(s0);
    var end := pos + 5 + SizeList(thn);
    EnterEnv(AppendBytes(s0, Encode(IBrUnless(INVALID))), Target(INVALID, pos + 1));
    var t := GenList(Inside(env, INVALID), thn, pos + 5);
    GenListSize(Inside(env, INVALID), thn, pos + 5);
    ResolveGuarded(s0.istream, env, IBrUnless(INVALID), IBrUnless(end), thn, [], end);
    assert s2.istream == s0.istream + (Encode(IBrUnless(INVALID)) + t) + [];
    assert FixupsAt(s2.depthFixups, n) == HolesList(thn, pos + 5, n + 1, LabelRef(n));
  }

  lemma DivideStream(s0: Stream, s2: Stream, thn: CodeList)
    requires s0.Wf() && EmittedList(EnterIf(s0), s2, thn)
    ensures var pos, env := |s0.istream|, EnvOf(s0);
            Divide(s2).istream
            == s0.istream + (Encode(IBrUnless(pos + 5 + SizeList(thn) + 5))
                             + GenList(Inside(env, INVALID), thn, pos + 5))
               + Encode(IBr(INVALID))
    ensures EnvOf(Divide(s2)) == Inside(EnvOf(s0), INVALID)
    ensures Divide(s2).Wf()
  {
    hide GenList, HolesList, PatchAll, Patch, SizeList, Encode;
    var pos, env := |s0.istream|, EnvOf(s0);
    var to := pos + 5 + SizeList(thn) + 5;
    EnterEnv(AppendBytes(s0, Encode(IBrUnless(INVALID))), Target(INVALID, pos + 1));
    var t := GenList(Inside(env, INVALID), thn, pos + 5);
    GenListSize(Inside(env, INVALID), thn, pos + 5);
    var br := Encode(IBr(INVALID));
    ResolveGuarded(s0.istream, env, IBrUnless(INVALID), IBrUnless(to), thn, br, to);
    assert s2.istream + br == s0.istream + (Encode(IBrUnless(INVALID)) + t) + br;
    assert Offsets(Divide(s2).labels) == Offsets(s2.labels);
  }

  /** The two branches side by side when `end` resolves the label: first the jump over the false
      branch, then the label's own holes. */
  lemma ResolveJump(pre: seq<Byte>, t: seq<Byte>, env: Env, els: CodeList, end: nat)
    ensures var e := GenList(Inside(env, INVALID), els, |pre + t| + 5);
            Patch(pre + t + Encode(IBr(INVALID)) + e, |pre + t| + 1, end) == pre + (t + (Encode(IBr(end)) + e))
  {
    hide GenList, Patch, Encode;
    var e := GenList(Inside(env, INVALID), els, |pre + t| + 5);
    PatchOperand(pre + t, IBr(INVALID), IBr(end), e);
    assert (pre + t) + Encode(IBr(end)) + e == pre + (t + (Encode(IBr(end)) + e));
  }

  lemma ResolveHoles(pre: seq<Byte>, env: Env, thn: CodeList, els: CodeList, elsPos: nat, end: nat)
    requires elsPos == |pre| + 5 + SizeList(thn) + 5
    ensures var n, pos, g, br := |env.labels|, |pre|, Encode(IBrUnless(elsPos)), Encode(IBr(end));
            var t, t' := GenList(Inside(env, INVALID), thn, pos + 5), GenList(Inside(env, end), thn, pos + 5);
            var e, e' := GenList(Inside(env, INVALID), els, elsPos), GenList(Inside(env, end), els, elsPos);
            var holes := HolesList(thn, pos + 5, n + 1, LabelRef(n)) + HolesList(els, elsPos, n + 1, LabelRef(n));
            PatchAll(pre + ((g + t) + (br + e)), holes, end) == pre + ((g + t') + (br + e'))
  {
    hide GenList, HolesList, PatchAll, Patch, SizeList, Encode;
    var n, pos, g, br := |env.labels|, |pre|, Encode(IBrUnless(elsPos)), Encode(IBr(end));
    var t, t' := g + GenList(Inside(env, INVALID), thn, pos + 5), g + GenList(Inside(env, end), thn, pos + 5);
    var e, e' := GenList(Inside(env, INVALID), els, elsPos), GenList(Inside(env, end), els, elsPos);
    GenListSize(Inside(env, end), thn, pos + 5);
    ResolveGuarded(pre, env, IBrUnless(elsPos), IBrUnless(elsPos), thn, (br + e) + [], end);
    ResolveGuarded(pre + t', env, IBr(end), IBr(end), els, [], end);
    PatchBoth(pre, t, t', br + e, br + e', [], HolesList(thn, pos + 5, n + 1, LabelRef(n)),
              HolesList(els, elsPos, n + 1, LabelRef(n)), end);
    assert pre + (t + (br + e)) + [] == pre + (t + (br + e));
    assert pre + (t' + (br + e')) + [] == pre + (t' + (br + e'));
  }

  lemma IfElseStream(s0: Stream, s2: Stream, s4: Stream, thn: CodeList, els: CodeList)
    requires s0.Wf() && EmittedList(EnterIf(s0), s2, thn) && EmittedList(Divide(s2), s4, els)
    requires FixupsAt(s4.depthFixups, |s0.labels|)
          == HolesList(thn, |s0.istream| + 5, |s0.labels| + 1, LabelRef(|s0.labels|))
             + HolesList(els, |s0.istream| + 5 + SizeList(thn) + 5, |s0.labels| + 1, LabelRef(|s0.labels|))
    ensures CloseIf(s4).istream == s0.istream + Gen(EnvOf(s0), IfElseCode(thn, els), |s0.istream|)
  {
    hide GenList, HolesList, Offsets, PatchAll, Patch, SizeList, Encode, Open;
    var pos, env := |s0.istream|, EnvOf(s0);
    var elsPos := pos + 5 + SizeList(thn) + 5;
    var end := elsPos + SizeList(els);
    var t := Encode(IBrUnless(elsPos)) + GenList(Inside(env, INVALID), thn, pos + 5);
    GenListSize(Inside(env, INVALID), thn, pos + 5);
    GenListSize(Inside(env, INVALID), els, elsPos);
    DivideStream(s0, s2, thn);
    ResolveJump(s0.istream, t, env, els, end);
    ResolveHoles(s0.istream, env, thn, els, elsPos, end);
    DivideFixup(s0, s2, thn);
  }

  lemma DivideFixup(s0: Stream, s2: Stream, thn: CodeList)
    requires s0.Wf() && EmittedList(EnterIf(s0), s2, thn)
    ensures Divide(s2).labels[|s0.labels|].fixup == |s0.istream| + 5 + SizeList(thn) + 1
    ensures |Divide(s2).labels| == |s0.labels| + 1
  {
    hide GenList, HolesList, PatchAll, Patch, SizeList, Encode;
    var pos, env := |s0.istream|, EnvOf(s0);
    EnterEnv(AppendBytes(s0, Encode(IBrUnless(INVALID))), Target(INVALID, pos + 1));
    GenListSize(Inside(env, INVALID), thn, pos + 5);
  }

  lemma IfElseFixups(s0: Stream, s2: Stream, s4: Stream, thn: CodeList, els: CodeList)
    requires s0.Wf() && EmittedList(EnterIf(s0), s2, thn) && EmittedList(Divide(s2), s4, els)
    ensures var pos, n := |s0.istream|, |s0.labels| + 1;
            var elsPos := pos + 5 + SizeList(thn) + 5;
            && |s4.labels| == n
            && (forall i :: 0 <= i < n ==>
                  FixupsAt(s4.depthFixups, i) == FixupsAt(s0.depthFixups, i)
                    + Open(s4.labels[i].offset, HolesList(thn, pos + 5, n, LabelRef(i))
                           + HolesList(els, elsPos, n, LabelRef(i))))
            && (forall f :: 0 <= f < |s0.offsets| ==>
                  FixupsAt(s4.funcFixups, f) == FixupsAt(s0.funcFixups, f)
                    + Open(s0.offsets[f], HolesList(thn, pos + 5, n, FuncRef(f))
                           + HolesList(els, elsPos, n, FuncRef(f))))
            && s4.labels[..n - 1] == s0.labels && s4.labels[n - 1].offset == INVALID
            && s4.offsets == s0.offsets && s4.Wf()
  {
    hide GenList, HolesList, Offsets, PatchAll, Patch, SizeList, Encode;
    DivideStream(s0, s2, thn);
    var pos, env := |s0.istream|, EnvOf(s0);
    GenListSize(Inside(env, INVALID), thn, pos + 5);
  }

  lemma IfElseEmitted(s0: Stream, s2: Stream, s4: Stream, thn: CodeList, els: CodeList)
    requires s0.Wf() && EmittedList(EnterIf(s0), s2, thn) && EmittedList(Divide(s2), s4, els)
    ensures Emitted(s0, CloseIf(s4), IfElseCode(thn, els))
  {
    hide EmittedList, GenList, HolesList, Offsets, PatchAll, Patch, SizeList, Encode, Gen, EnterIf, EnvOf;
    IfElseFixups(s0, s2, s4, thn, els);
    IfElseStream(s0, s2, s4, thn, els);
  }

  // ----- Instructions without a body -------------------------------------------------------------

  /** `AppendFixup`: the vector grows on demand. */
  function AppendFixup(fixups: seq<seq<nat>>, i: nat, at: nat): (r: seq<seq<nat>>)
    ensures |r| == if |fixups| > i then |fixups| else i + 1
    ensures forall k: int :: FixupsAt(r, k) == FixupsAt(fixups, k) + if k == i then [at] else []
  {
    var grown := if |fixups| > i then fixups else fixups + seq(i + 1 - |fixups|, _ => []);
    grown[i := grown[i] + [at]]
  }

  /** `EmitBrOffset`. */
  function BrOffset(s: Stream, depth: nat): Stream
    requires depth < |s.labels|
  {
    var i := |s.labels| - 1 - depth;
    var offset := s.labels[i].offset;
    var s' := if offset == INVALID then s.(depthFixups := AppendFixup(s.depthFixups, i, |s.istream|)) else s;
    AppendBytes(s', U32(offset))
  }

  /** `EmitFuncOffset`. */
  function CallOffset(s: Stream, f: nat): Stream
    requires f < |s.offsets|
  {
    var offset := s.offsets[f];
    var s' := if offset == INVALID then s.(funcFixups := AppendFixup(s.funcFixups, f, |s.istream|)) else s;
    AppendBytes(s', U32(offset))
  }

  /** `EmitBr`. */
  function BrStream(s: Stream, j: Jump): Stream
    requires j.depth < |s.labels|
  {
    BrOffset(AppendBytes(AppendBytes(s, DropKeepCode(j)), [Opcode(IBr(0))]), j.depth)
  }

  lemma PlainEmitted(s: Stream, instrs: seq<Instr>)
    requires s.Wf()
    ensures Emitted(s, AppendBytes(s, EncodeAll(instrs)), Plain(instrs))
  {
  }

  lemma BrEmitted(s: Stream, j: Jump)
    requires s.Wf() && j.depth < |s.labels|
    ensures Emitted(s, BrStream(s, j), BrCode(j))
  {
    hide U32, DropKeepCode, AppendFixup;
    var i := |s.labels| - 1 - j.depth;
    var offset := s.labels[i].offset;
    assert BrStream(s, j).istream == s.istream + (DropKeepCode(j) + ([Opcode(IBr(0))] + U32(offset)));
    assert Encode(IBr(offset)) == [Opcode(IBr(0))] + U32(offset);
  }

  lemma CallEmitted(s: Stream, f: nat)
    requires s.Wf() && f < |s.offsets|
    ensures Emitted(s, CallOffset(AppendBytes(s, [Opcode(ICall(0))]), f), CallCode(f))
  {
    hide U32, AppendFixup;
    assert Encode(ICall(s.offsets[f])) == [Opcode(ICall(0))] + U32(s.offsets[f]);
    assert (s.istream + [Opcode(ICall(0))]) + U32(s.offsets[f]) == s.istream + ([Opcode(ICall(0))] + U32(s.offsets[f]));
  }

  /** `br_if` jumps over an inverted branch whose length is only known afterwards. */
  function BrIfStream(s: Stream, j: Jump): Stream
    requires j.depth < |s.labels|
  {
    var s' := BrStream(AppendBytes(s, Encode(IBrUnless(INVALID))), j);
    s'.(istream := Patch(s'.istream, |s.istream| + 1, |s'.istream|))
  }

  lemma BrIfEmitted(s: Stream, j: Jump)
    requires s.Wf() && j.depth < |s.labels|
    ensures Emitted(s, BrIfStream(s, j), BrIfCode(j)) && Recorded(s, BrIfStream(s, j))
  {
    hide Encode, U32, JumpBytes, BrStream, Patch, EncodeAll;
    var s1 := AppendBytes(s, Encode(IBrUnless(INVALID)));
    BrEmitted(s1, j);
    var jump := JumpBytes(EnvOf(s), j);
    assert EnvOf(s1) == EnvOf(s);
    var to := |s.istream| + 5 + |jump|;
    PatchOperand(s.istream, IBrUnless(INVALID), IBrUnless(to), jump);
    assert s.istream + Encode(IBrUnless(to)) + jump == s.istream + (Encode(IBrUnless(to)) + jump);
  }

  predicate EmittedEntries(s0: Stream, s1: Stream, jumps: seq<Jump>) {
    && Recorded(s0, s1)
    && s1.funcFixups == s0.funcFixups
    && s1.istream == s0.istream + EntriesBytes(EnvOf(s0), jumps)
    && (forall i :: 0 <= i < |s0.labels| ==>
          FixupsAt(s1.depthFixups, i) == FixupsAt(s0.depthFixups, i)
            + Open(s0.labels[i].offset, EntryHoles(jumps, |s0.istream|, |s0.labels|, LabelRef(i))))
  }

  /** `EmitBrTableOffset`. */
  function EntryStream(s: Stream, j: Jump): Stream
    requires j.depth < |s.labels|
  {
    AppendBytes(AppendBytes(BrOffset(s, j.depth), U32(j.drop)), U32(j.keep))
  }

  lemma {:induction false} EntriesSnoc(env: Env, jumps: seq<Jump>, j: Jump, pos: nat, n: nat, r: Ref)
    ensures EntriesBytes(env, jumps + [j]) == EntriesBytes(env, jumps) + EntryBytes(env, j)
    ensures EntryHoles(jumps + [j], pos, n, r)
         == EntryHoles(jumps, pos, n, r) + EntryHole(j, pos + 12 * |jumps|, n, r)
    decreases |jumps|
  {
    hide EntryBytes, EntryHole;
    if jumps == [] {
      assert jumps + [j] == [j];
    } else {
      assert (jumps + [j])[1..] == jumps[1..] + [j];
      EntriesSnoc(env, jumps[1..], j, pos + 12, n, r);
    }
  }

  lemma EntryEmitted(s0: Stream, s: Stream, jumps: seq<Jump>, j: Jump)
    requires EmittedEntries(s0, s, jumps) && j.depth < |s.labels|
    ensures EmittedEntries(s0, EntryStream(s, j), jumps + [j])
  {
    hide U32, EntriesBytes, EntryHoles, AppendFixup, Offsets;
    var n, pos, env := |s0.labels|, |s0.istream|, EnvOf(s0);
    forall i | 0 <= i < n
      ensures EntriesBytes(env, jumps + [j]) == EntriesBytes(env, jumps) + EntryBytes(env, j)
      ensures EntryHoles(jumps + [j], pos, n, LabelRef(i))
           == EntryHoles(jumps, pos, n, LabelRef(i)) + EntryHole(j, pos + 12 * |jumps|, n, LabelRef(i))
    {
      EntriesSnoc(env, jumps, j, pos, n, LabelRef(i));
    }
    EntriesSnoc(env, jumps, j, pos, n, FuncRef(0));
    assert EntryStream(s, j).istream
        == s.istream + (U32(s.labels[n - 1 - j.depth].offset) + (U32(j.drop) + U32(j.keep)));
  }

  lemma EntriesStarted(s: Stream)
    requires s.Wf()
    ensures EmittedEntries(s, s, [])
  {
  }

  lemma EntryRecorded(s0: Stream, s: Stream, jumps: seq<Jump>, j: Jump)
    requires EmittedEntries(s0, s, jumps) && j.depth < |s.labels|
    ensures Recorded(s0, EntryStream(s, j))
  {
    hide U32;
  }

  lemma TargetInRange(tc: Checker, depths: seq<nat>, i: nat)
    requires i < |depths| && TargetOk(tc, depths, i)
    ensures depths[i] < |tc.labels|
  {
  }

  /** An instruction with one operand is its opcode and that operand. */
  lemma OpenOperand(i: Instr)
    requires OneOperand(i)
    ensures Encode(i) == [Opcode(i)] + U32(Operands(i)[0])
  {
  }

  /** The header is written with the table's own offset still open. */
  function TableStream(s: Stream, n: nat): Stream {
    var s' := AppendBytes(s, Encode(IBrTable(n - 1, INVALID)) + Encode(IData(12 * n)));
    s'.(istream := Patch(s'.istream, |s.istream| + 5, |s'.istream|))
  }

  lemma TableStarted(s: Stream, n: nat)
    ensures TableStream(s, n) == AppendBytes(s, TableHeader(n, |s.istream|))
  {
    hide U32, Patch;
    var pre := s.istream + [Opcode(IBrTable(0, 0))] + U32(n - 1);
    var data, to := Encode(IData(12 * n)), |s.istream| + 14;
    assert Encode(IBrTable(n - 1, INVALID)) == [Opcode(IBrTable(0, 0))] + (U32(n - 1) + U32(INVALID));
    assert Encode(IBrTable(n - 1, to)) == [Opcode(IBrTable(0, 0))] + (U32(n - 1) + U32(to));
    assert s.istream + (Encode(IBrTable(n - 1, INVALID)) + data) == pre + U32(INVALID) + data;
    PatchWord(pre, INVALID, data, to);
    assert s.istream + (Encode(IBrTable(n - 1, to)) + data) == pre + U32(to) + data;
  }

  lemma {:induction false} NoCallEntries(jumps: seq<Jump>, pos: nat, n: nat, f: nat)
    ensures EntryHoles(jumps, pos, n, FuncRef(f)) == []
    decreases |jumps|
  {
    if jumps != [] {
      NoCallEntries(jumps[1..], pos + 12, n, f);
    }
  }

  lemma TableEmitted(s0: Stream, s1: Stream, jumps: seq<Jump>)
    requires s0.Wf() && EmittedEntries(TableStream(s0, |jumps|), s1, jumps)
    ensures Emitted(s0, s1, TableCode(jumps)) && Recorded(s0, s1)
  {
    hide EntriesBytes, EntryHoles, TableHeader, TableStream, Offsets;
    TableStarted(s0, |jumps|);
    forall f | 0 <= f < |s0.offsets| ensures EntryHoles(jumps, |s0.istream| + 14, |s0.labels|, FuncRef(f)) == [] {
      NoCallEntries(jumps, |s0.istream| + 14, |s0.labels|, f);
    }
    var h := TableHeader(|jumps|, |s0.istream|);
    assert (s0.istream + h) + EntriesBytes(EnvOf(s0), jumps) == s0.istream + (h + EntriesBytes(EnvOf(s0), jumps));
  }

  lemma EmittedSize(s0: Stream, s1: Stream, c: Code)
    requires Emitted(s0, s1, c)
    ensures |s1.istream| == |s0.istream| + Size(c)
  {
    GenSize(EnvOf(s0), c, |s0.istream|);
  }

  lemma EmittedListSize(s0: Stream, s1: Stream, c: CodeList)
    requires EmittedList(s0, s1, c)
    ensures |s1.istream| == |s0.istream| + SizeList(c)
  {
    GenListSize(EnvOf(s0), c, |s0.istream|);
  }

  lemma EnterIfSize(s: Stream)
    ensures |EnterIf(s).istream| == |s.istream| + 5
  {
  }

  lemma DivideShape(s: Stream)
    requires s.labels != []
    ensures |Divide(s).istream| == |s.istream| + 5
    ensures |Divide(s).labels| == |s.labels|
    ensures Divide(s).depthFixups == s.depthFixups
    ensures Divide(s).funcFixups == s.funcFixups && Divide(s).offsets == s.offsets
  {
  }
}
