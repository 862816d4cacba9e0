/** The bytes of elaborated code once every target offset is known, the places where those offsets
    sit, and what overwriting such a place does. */
module Layout {
  import opened Syntax
  import opened Bytecode
  import opened Elaborate

  /** What the stream holds for a target that is not known yet. */
  const INVALID := 0xffff_ffff

  /** Offsets of the enclosing labels, outermost (the function's) first, and of the functions. */
  datatype Env = Env(labels: seq<nat>, funcs: seq<nat>)

  /** A target by its absolute position: labels count from the function label inwards. */
  datatype Ref = LabelRef(index: int) | FuncRef(f: int)

  function At(offsets: seq<nat>, i: int): nat {
    if 0 <= i < |offsets| then offsets[i] else INVALID
  }

  function Assign(env: Env, r: Ref, v: nat): Env {
    match r
    case LabelRef(i) => if 0 <= i < |env.labels| then env.(labels := env.labels[i := v]) else env
    case FuncRef(f) => if 0 <= f < |env.funcs| then env.(funcs := env.funcs[f := v]) else env
  }

  function Inside(env: Env, target: nat): Env {
    env.(labels := env.labels + [target])
  }

  function EncodeAll(instrs: seq<Instr>): seq<Byte> {
    if instrs == [] then [] else Encode(instrs[0]) + EncodeAll(instrs[1..])
  }

  /** Size of the drop/keep prefix of a branch. */
  function DropKeepCode(j: Jump): seq<Byte> {
    EncodeAll(DropKeepInstrs(j.drop, j.keep))
  }

  function SizeList(c: CodeList): nat
    decreases c
  {
    match c
    case CNil => 0
    case CCons(h, t) => Size(h) + SizeList(t)
  }

  function Size(c: Code): nat
    decreases c
  {
    match c
    case Plain(instrs) => |EncodeAll(instrs)|
    case BlockCode(body) => SizeList(body)
    case LoopCode(body) => SizeList(body)
    case IfCode(thn) => 5 + SizeList(thn)
    case IfElseCode(thn, els) => 5 + SizeList(thn) + (5 + SizeList(els))
    case BrCode(j) => |DropKeepCode(j)| + 5
    case BrIfCode(j) => 5 + (|DropKeepCode(j)| + 5)
    case TableCode(jumps) => 14 + 12 * |jumps|
    case CallCode(_) => 5
  }

  function JumpBytes(env: Env, j: Jump): seq<Byte> {
    DropKeepCode(j) + Encode(IBr(At(env.labels, |env.labels| - 1 - j.depth)))
  }

  /** One entry of a branch table: offset, drop count, keep count. */
  function EntryBytes(env: Env, j: Jump): (bytes: seq<Byte>)
    ensures |bytes| == 12
  {
    U32(At(env.labels, |env.labels| - 1 - j.depth)) + (U32(j.drop) + U32(j.keep))
  }

  function EntriesBytes(env: Env, jumps: seq<Jump>): (bytes: seq<Byte>)
    ensures |bytes| == 12 * |jumps|
  {
    if jumps == [] then [] else EntryBytes(env, jumps[0]) + EntriesBytes(env, jumps[1..])
  }

  /** `InterpData` and the table follow the opcode; the table's own offset comes first. */
  function TableHeader(n: int, pos: nat): (bytes: seq<Byte>)
    ensures |bytes| == 14
  {
    Encode(IBrTable(n - 1, pos + 14)) + Encode(IData(12 * n))
  }

  function GenList(env: Env, c: CodeList, pos: nat): seq<Byte>
    decreases c
  {
    match c
    case CNil => []
    case CCons(h, t) => Gen(env, h, pos) + GenList(env, t, pos + Size(h))
  }

  function Gen(env: Env, c: Code, pos: nat): seq<Byte>
    decreases c
  {
    match c
    case Plain(instrs) => EncodeAll(instrs)
    case BlockCode(body) => GenList(Inside(env, pos + SizeList(body)), body, pos)
    case LoopCode(body) => GenList(Inside(env, pos), body, pos)
    case IfCode(thn) =>
      var end := pos + 5 + SizeList(thn);
      Encode(IBrUnless(end)) + GenList(Inside(env, end), thn, pos + 5)
    case IfElseCode(thn, els) =>
      var elsPos := pos + 5 + SizeList(thn) + 5;
      var end := elsPos + SizeList(els);
      (Encode(IBrUnless(elsPos)) + GenList(Inside(env, end), thn, pos + 5))
      + (Encode(IBr(end)) + GenList(Inside(env, end), els, elsPos))
    case BrCode(j) => JumpBytes(env, j)
    case BrIfCode(j) => Encode(IBrUnless(pos + 5 + |JumpBytes(env, j)|)) + JumpBytes(env, j)
    case TableCode(jumps) => TableHeader(|jumps|, pos) + EntriesBytes(env, jumps)
    case CallCode(f) => Encode(ICall(At(env.funcs, f)))
  }

  function FuncSize(c: FuncCode): nat {
    |EncodeAll(c.alloca)| + (SizeList(c.body) + |EncodeAll(c.exit)|)
  }

  /** The label of a function is its implicit return. */
  function GenFunc(offsets: seq<nat>, c: FuncCode, pos: nat): seq<Byte> {
    var start := pos + |EncodeAll(c.alloca)|;
    EncodeAll(c.alloca) + (GenList(Env([start + SizeList(c.body)], offsets), c.body, start) + EncodeAll(c.exit))
  }

  /** Function bodies one after the other. */
  function GenFuncs(offsets: seq<nat>, cs: seq<FuncCode>, pos: nat): seq<Byte> {
    if cs == [] then []
    else GenFunc(offsets, cs[0], pos) + GenFuncs(offsets, cs[1..], pos + FuncSize(cs[0]))
  }

  lemma {:induction false} GenListSize(env: Env, c: CodeList, pos: nat)
    ensures |GenList(env, c, pos)| == SizeList(c)
    decreases c
  {
    hide Gen, Size;
    match c
    case CNil =>
    case CCons(h, t) =>
      GenSize(env, h, pos);
      GenListSize(env, t, pos + Size(h));
  }

  lemma {:induction false} GenSize(env: Env, c: Code, pos: nat)
    ensures |Gen(env, c, pos)| == Size(c)
    decreases c
  {
    hide Encode, EncodeAll, GenList, SizeList, EntriesBytes, TableHeader, DropKeepInstrs;
    match c
    case BlockCode(body) => GenListSize(Inside(env, pos + SizeList(body)), body, pos);
    case LoopCode(body) => GenListSize(Inside(env, pos), body, pos);
    case IfCode(thn) => GenListSize(Inside(env, pos + 5 + SizeList(thn)), thn, pos + 5);
    case IfElseCode(thn, els) =>
      var elsPos := pos + 5 + SizeList(thn) + 5;
      var end := elsPos + SizeList(els);
      GenListSize(Inside(env, end), thn, pos + 5);
      GenListSize(Inside(env, end), els, elsPos);
    case _ =>
  }

  lemma EncodeOne(i: Instr)
    ensures EncodeAll([i]) == Encode(i)
  {
    hide Encode;
    assert [i][1..] == [];
  }

  lemma {:induction false} EncodeSnoc(instrs: seq<Instr>, i: Instr)
    ensures EncodeAll(instrs + [i]) == EncodeAll(instrs) + Encode(i)
    decreases |instrs|
  {
    hide Encode;
    if instrs == [] {
      assert instrs + [i] == [i];
    } else {
      assert (instrs + [i])[1..] == instrs[1..] + [i];
      EncodeSnoc(instrs[1..], i);
    }
  }

  // ----- Holes: where a target's offset is stored ----------------------------------------------

  function JumpHole(j: Jump, pos: nat, n: nat, r: Ref): seq<nat> {
    if r == LabelRef(n - 1 - j.depth) then [pos + |DropKeepCode(j)| + 1] else []
  }

  function EntryHoles(jumps: seq<Jump>, pos: nat, n: nat, r: Ref): seq<nat> {
    if jumps == [] then []
    else EntryHole(jumps[0], pos, n, r) + EntryHoles(jumps[1..], pos + 12, n, r)
  }

  function EntryHole(j: Jump, pos: nat, n: nat, r: Ref): seq<nat> {
    if r == LabelRef(n - 1 - j.depth) then [pos] else []
  }

  /** The offsets, in increasing order, of the operands that refer to `r` in code placed at `pos`
      inside `n` labels. */
  function HolesList(c: CodeList, pos: nat, n: nat, r: Ref): seq<nat>
    decreases c
  {
    match c
    case CNil => []
    case CCons(h, t) => Holes(h, pos, n, r) + HolesList(t, pos + Size(h), n, r)
  }

  function Holes(c: Code, pos: nat, n: nat, r: Ref): seq<nat>
    decreases c
  {
    match c
    case Plain(_) => []
    case BlockCode(body) => HolesList(body, pos, n + 1, r)
    case LoopCode(body) => HolesList(body, pos, n + 1, r)
    case IfCode(thn) => HolesList(thn, pos + 5, n + 1, r)
    case IfElseCode(thn, els) =>
      HolesList(thn, pos + 5, n + 1, r) + HolesList(els, pos + 5 + SizeList(thn) + 5, n + 1, r)
    case BrCode(j) => JumpHole(j, pos, n, r)
    case BrIfCode(j) => JumpHole(j, pos + 5, n, r)
    case TableCode(jumps) => EntryHoles(jumps, pos + 14, n, r)
    case CallCode(f) => if r == FuncRef(f) then [pos + 1] else []
  }

  function FuncHoles(c: FuncCode, pos: nat, f: nat): seq<nat> {
    HolesList(c.body, pos + |EncodeAll(c.alloca)|, 1, FuncRef(f))
  }

  function FuncsHoles(cs: seq<FuncCode>, pos: nat, f: nat): seq<nat> {
    if cs == [] then [] else FuncHoles(cs[0], pos, f) + FuncsHoles(cs[1..], pos + FuncSize(cs[0]), f)
  }

  /** `EmitI32At`: four bytes are overwritten in place. */
  function Patch(code: seq<Byte>, at: nat, v: int): (r: seq<Byte>)
    ensures |r| == |code|
  {
    if at + 4 <= |code| then code[..at] + U32(v) + code[at + 4..] else code
  }

  function PatchAll(code: seq<Byte>, ats: seq<nat>, v: int): (r: seq<Byte>)
    ensures |r| == |code|
    decreases |ats|
  {
    if ats == [] then code else PatchAll(Patch(code, ats[0], v), ats[1..], v)
  }

  lemma {:induction false} PatchAllConcat(code: seq<Byte>, a: seq<nat>, b: seq<nat>, v: int)
    ensures PatchAll(code, a + b, v) == PatchAll(PatchAll(code, a, v), b, v)
    decreases |a|
  {
    if a == [] {
      assert a + b == b;
    } else {
      assert (a + b)[1..] == a[1..] + b;
      PatchAllConcat(Patch(code, a[0], v), a[1..], b, v);
    }
  }

  lemma PatchWord(pre: seq<Byte>, old': int, post: seq<Byte>, v: int)
    ensures Patch(pre + U32(old') + post, |pre|, v) == pre + U32(v) + post
  {
    var code := pre + U32(old') + post;
    assert code[..|pre|] == pre && code[|pre| + 4..] == post;
  }

  predicate OneOperand(i: Instr) {
    |Operands(i)| == 1
  }

  lemma PatchOperand(pre: seq<Byte>, i: Instr, i': Instr, post: seq<Byte>)
    requires OneOperand(i) && OneOperand(i') && Opcode(i) == Opcode(i')
    ensures Patch(pre + Encode(i) + post, |pre| + 1, Operands(i')[0]) == pre + Encode(i') + post
  {
    var pre1 := pre + [Opcode(i)];
    assert pre + Encode(i) + post == pre1 + U32(Operands(i)[0]) + post;
    assert pre + Encode(i') + post == pre1 + U32(Operands(i')[0]) + post;
    PatchWord(pre1, Operands(i)[0], post, Operands(i')[0]);
  }

  predicate Known(env: Env, r: Ref) {
    match r
    case LabelRef(i) => 0 <= i < |env.labels|
    case FuncRef(f) => 0 <= f < |env.funcs|
  }

  /** Patching `a` and then `b` where they stand side by side. */
  lemma PatchBoth(pre: seq<Byte>, a: seq<Byte>, a': seq<Byte>, b: seq<Byte>, b': seq<Byte>, post: seq<Byte>,
                  ha: seq<nat>, hb: seq<nat>, v: int)
    requires PatchAll(pre + a + (b + post), ha, v) == pre + a' + (b + post)
    requires PatchAll((pre + a') + b + post, hb, v) == (pre + a') + b' + post
    ensures PatchAll(pre + (a + b) + post, ha + hb, v) == pre + (a' + b') + post
  {
    hide Patch;
    PatchAllConcat(pre + (a + b) + post, ha, hb, v);
    assert pre + (a + b) + post == pre + a + (b + post);
    assert pre + a' + (b + post) == (pre + a') + b + post;
    assert (pre + a') + b' + post == pre + (a' + b') + post;
  }

  /** Patching behind a fixed prefix. */
  lemma PatchBehind(pre: seq<Byte>, g: seq<Byte>, b: seq<Byte>, b': seq<Byte>, post: seq<Byte>, h: seq<nat>, v: int)
    requires PatchAll((pre + g) + b + post, h, v) == (pre + g) + b' + post
    ensures PatchAll(pre + (g + b) + post, h, v) == pre + (g + b') + post
  {
    hide PatchAll;
    assert (pre + g) + b + post == pre + (g + b) + post;
    assert (pre + g) + b' + post == pre + (g + b') + post;
  }

  /** Filling the holes of one target yields the code for that target's offset. */
  lemma {:induction false} PatchGenList(pre: seq<Byte>, env: Env, c: CodeList, post: seq<Byte>, r: Ref, v: nat)
    requires Known(env, r)
    ensures PatchAll(pre + GenList(env, c, |pre|) + post, HolesList(c, |pre|, |env.labels|, r), v)
            == pre + GenList(Assign(env, r, v), c, |pre|) + post
    decreases c, 0
  {
    hide Gen, Holes, Size, Patch, SizeList;
    match c
    case CNil =>
    case CCons(h, t) =>
      var env', n, pos := Assign(env, r, v), |env.labels|, |pre|;
      var a, a', b := Gen(env, h, pos), Gen(env', h, pos), GenList(env, t, pos + Size(h));
      GenSize(env', h, pos);
      PatchGen(pre, env, h, b + post, r, v);
      PatchGenList(pre + a', env, t, post, r, v);
      PatchBoth(pre, a, a', b, GenList(env', t, pos + Size(h)), post,
                Holes(h, pos, n, r), HolesList(t, pos + Size(h), n, r), v);
  }

  lemma PatchJump(pre: seq<Byte>, env: Env, j: Jump, post: seq<Byte>, r: Ref, v: nat)
    requires Known(env, r)
    ensures PatchAll(pre + JumpBytes(env, j) + post, JumpHole(j, |pre|, |env.labels|, r), v)
            == pre + JumpBytes(Assign(env, r, v), j) + post
  {
    hide Encode, EncodeAll, DropKeepInstrs, Patch;
    var i := |env.labels| - 1 - j.depth;
    if r == LabelRef(i) {
      var dk := DropKeepCode(j);
      var br := IBr(At(env.labels, i));
      PatchOperand(pre + dk, br, IBr(v), post);
      assert PatchAll((pre + dk) + Encode(br) + post, [|pre + dk| + 1], v) == (pre + dk) + Encode(IBr(v)) + post;
      PatchBehind(pre, dk, Encode(br), Encode(IBr(v)), post, [|pre + dk| + 1], v);
    }
  }

  lemma PatchEntry(pre: seq<Byte>, env: Env, j: Jump, post: seq<Byte>, r: Ref, v: nat)
    requires Known(env, r)
    ensures PatchAll(pre + EntryBytes(env, j) + post, EntryHole(j, |pre|, |env.labels|, r), v)
            == pre + EntryBytes(Assign(env, r, v), j) + post
  {
    hide U32, Patch;
    var i := |env.labels| - 1 - j.depth;
    if r == LabelRef(i) {
      var rest := U32(j.drop) + U32(j.keep);
      assert pre + EntryBytes(env, j) + post == pre + U32(env.labels[i]) + (rest + post);
      PatchWord(pre, env.labels[i], rest + post, v);
      assert pre + (U32(v) + rest) + post == pre + U32(v) + (rest + post);
    }
  }

  lemma {:induction false} PatchEntries(pre: seq<Byte>, env: Env, jumps: seq<Jump>, post: seq<Byte>, r: Ref, v: nat)
    requires Known(env, r)
    ensures PatchAll(pre + EntriesBytes(env, jumps) + post, EntryHoles(jumps, |pre|, |env.labels|, r), v)
            == pre + EntriesBytes(Assign(env, r, v), jumps) + post
    decreases |jumps|
  {
    hide EntryBytes, EntryHole, Patch;
    if jumps != [] {
      var env', n, j := Assign(env, r, v), |env.labels|, jumps[0];
      var a, a', b := EntryBytes(env, j), EntryBytes(env', j), EntriesBytes(env, jumps[1..]);
      PatchEntry(pre, env, j, b + post, r, v);
      PatchEntries(pre + a', env, jumps[1..], post, r, v);
      PatchBoth(pre, a, a', b, EntriesBytes(env', jumps[1..]), post,
                EntryHole(j, |pre|, n, r), EntryHoles(jumps[1..], |pre| + 12, n, r), v);
    }
  }

  lemma AssignInside(env: Env, r: Ref, v: nat, target: nat)
    requires Known(env, r)
    ensures Assign(Inside(env, target), r, v) == Inside(Assign(env, r, v), target)
    ensures Known(Inside(env, target), r)
  {
    if r.LabelRef? {
      assert (env.labels + [target])[r.index := v] == env.labels[r.index := v] + [target];
    }
  }

  lemma {:induction false} PatchGen(pre: seq<Byte>, env: Env, c: Code, post: seq<Byte>, r: Ref, v: nat)
    requires Known(env, r)
    ensures PatchAll(pre + Gen(env, c, |pre|) + post, Holes(c, |pre|, |env.labels|, r), v)
            == pre + Gen(Assign(env, r, v), c, |pre|) + post
    decreases c, 2
  {
    hide Encode, EncodeAll, GenList, HolesList, SizeList, Patch, JumpHole, EntryHoles;
    hide JumpBytes, EntriesBytes, TableHeader, Assign;
    var env', pos := Assign(env, r, v), |pre|;
    AssignSizes(env, r, v);
    match c
    case Plain(_) =>
    case BlockCode(body) =>
      AssignInside(env, r, v, pos + SizeList(body));
      PatchGenList(pre, Inside(env, pos + SizeList(body)), body, post, r, v);
    case LoopCode(body) =>
      AssignInside(env, r, v, pos);
      PatchGenList(pre, Inside(env, pos), body, post, r, v);
    case IfCode(thn) =>
      var end := pos + 5 + SizeList(thn);
      PatchGuarded(pre, env, IBrUnless(end), end, thn, post, r, v);
    case IfElseCode(thn, els) => PatchIfElse(pre, env, thn, els, post, r, v);
    case BrCode(j) => PatchJump(pre, env, j, post, r, v);
    case BrIfCode(j) =>
      JumpBytesSize(env, env', j);
      var g := Encode(IBrUnless(pos + 5 + |JumpBytes(env, j)|));
      PatchJump(pre + g, env, j, post, r, v);
      PatchBehind(pre, g, JumpBytes(env, j), JumpBytes(env', j), post, JumpHole(j, pos + 5, |env.labels|, r), v);
    case TableCode(jumps) =>
      var h := TableHeader(|jumps|, pos);
      PatchEntries(pre + h, env, jumps, post, r, v);
      PatchBehind(pre, h, EntriesBytes(env, jumps), EntriesBytes(env', jumps), post,
                  EntryHoles(jumps, pos + 14, |env.labels|, r), v);
    case CallCode(f) => PatchCall(pre, env, f, post, r, v);
  }

  lemma AssignSizes(env: Env, r: Ref, v: nat)
    ensures |Assign(env, r, v).labels| == |env.labels| && |Assign(env, r, v).funcs| == |env.funcs|
  {
  }

  lemma JumpBytesSize(env: Env, env': Env, j: Jump)
    ensures |JumpBytes(env, j)| == |JumpBytes(env', j)| == |DropKeepCode(j)| + 5
  {
    hide DropKeepCode, Encode;
  }

  lemma PatchCall(pre: seq<Byte>, env: Env, f: nat, post: seq<Byte>, r: Ref, v: nat)
    requires Known(env, r)
    ensures PatchAll(pre + Encode(ICall(At(env.funcs, f))) + post, if r == FuncRef(f) then [|pre| + 1] else [], v)
            == pre + Encode(ICall(At(Assign(env, r, v).funcs, f))) + post
  {
    hide Encode, Patch;
    if r == FuncRef(f) {
      PatchOperand(pre, ICall(At(env.funcs, f)), ICall(v), post);
      assert At(Assign(env, r, v).funcs, f) == v;
    } else {
      assert At(Assign(env, r, v).funcs, f) == At(env.funcs, f);
    }
  }

  lemma {:induction false} PatchIfElse(
      pre: seq<Byte>, env: Env, thn: CodeList, els: CodeList, post: seq<Byte>, r: Ref, v: nat)
    requires Known(env, r)
    ensures PatchAll(pre + Gen(env, IfElseCode(thn, els), |pre|) + post,
                     Holes(IfElseCode(thn, els), |pre|, |env.labels|, r), v)
            == pre + Gen(Assign(env, r, v), IfElseCode(thn, els), |pre|) + post
    decreases IfElseCode(thn, els), 1
  {
    hide Encode, GenList, HolesList, SizeList, Patch, Assign;
    var env', n, pos := Assign(env, r, v), |env.labels|, |pre|;
    var elsPos := pos + 5 + SizeList(thn) + 5;
    var end := elsPos + SizeList(els);
    var t := Encode(IBrUnless(elsPos)) + GenList(Inside(env, end), thn, pos + 5);
    var t' := Encode(IBrUnless(elsPos)) + GenList(Inside(env', end), thn, pos + 5);
    var f := Encode(IBr(end)) + GenList(Inside(env, end), els, elsPos);
    var f' := Encode(IBr(end)) + GenList(Inside(env', end), els, elsPos);
    GenListSize(Inside(env', end), thn, pos + 5);
    PatchGuarded(pre, env, IBrUnless(elsPos), end, thn, f + post, r, v);
    PatchGuarded(pre + t', env, IBr(end), end, els, post, r, v);
    PatchBoth(pre, t, t', f, f', post, HolesList(thn, pos + 5, n + 1, r), HolesList(els, elsPos, n + 1, r), v);
  }

  /** A list of instructions behind one conditional or unconditional jump. */
  lemma {:induction false} PatchGuarded(
      pre: seq<Byte>, env: Env, i: Instr, end: nat, c: CodeList, post: seq<Byte>, r: Ref, v: nat)
    requires Known(env, r) && OneOperand(i)
    ensures PatchAll(pre + (Encode(i) + GenList(Inside(env, end), c, |pre| + 5)) + post,
                     HolesList(c, |pre| + 5, |env.labels| + 1, r), v)
            == pre + (Encode(i) + GenList(Inside(Assign(env, r, v), end), c, |pre| + 5)) + post
    decreases c, 1
  {
    hide Encode, GenList, HolesList, PatchAll;
    var g, env' := Encode(i), Assign(env, r, v);
    AssignInside(env, r, v, end);
    PatchGenList(pre + g, Inside(env, end), c, post, r, v);
    PatchBehind(pre, g, GenList(Inside(env, end), c, |pre| + 5), GenList(Inside(env', end), c, |pre| + 5), post,
                HolesList(c, |pre| + 5, |env.labels| + 1, r), v);
  }

  lemma GenFuncSize(offsets: seq<nat>, c: FuncCode, pos: nat)
    ensures |GenFunc(offsets, c, pos)| == FuncSize(c)
  {
    hide EncodeAll, GenList;
    var start := pos + |EncodeAll(c.alloca)|;
    GenListSize(Env([start + SizeList(c.body)], offsets), c.body, start);
  }

  lemma PatchFunc(pre: seq<Byte>, offsets: seq<nat>, c: FuncCode, post: seq<Byte>, f: nat, v: nat)
    requires f < |offsets|
    ensures PatchAll(pre + GenFunc(offsets, c, |pre|) + post, FuncHoles(c, |pre|, f), v)
            == pre + GenFunc(offsets[f := v], c, |pre|) + post
  {
    hide EncodeAll, GenList, HolesList, SizeList, PatchAll, Patch;
    var a, x := EncodeAll(c.alloca), EncodeAll(c.exit);
    var start := |pre| + |a|;
    var env := Env([start + SizeList(c.body)], offsets);
    var b, b' := GenList(env, c.body, start), GenList(Assign(env, FuncRef(f), v), c.body, start);
    PatchGenList(pre + a, env, c.body, x + post, FuncRef(f), v);
    assert (pre + a) + b + (x + post) == pre + (a + (b + x)) + post;
    assert (pre + a) + b' + (x + post) == pre + (a + (b' + x)) + post;
  }

  /** Filling the holes of one function in all bodies emitted so far. */
  lemma {:induction false} PatchFuncs(
      pre: seq<Byte>, offsets: seq<nat>, cs: seq<FuncCode>, post: seq<Byte>, f: nat, v: nat)
    requires f < |offsets|
    ensures PatchAll(pre + GenFuncs(offsets, cs, |pre|) + post, FuncsHoles(cs, |pre|, f), v)
            == pre + GenFuncs(offsets[f := v], cs, |pre|) + post
    decreases |cs|
  {
    hide GenFunc, FuncHoles, FuncSize, Patch;
    if cs != [] {
      var offsets', c := offsets[f := v], cs[0];
      var pos := |pre| + FuncSize(c);
      var a, a', b := GenFunc(offsets, c, |pre|), GenFunc(offsets', c, |pre|), GenFuncs(offsets, cs[1..], pos);
      GenFuncSize(offsets', c, |pre|);
      PatchFunc(pre, offsets, c, b + post, f, v);
      PatchFuncs(pre + a', offsets, cs[1..], post, f, v);
      PatchBoth(pre, a, a', b, GenFuncs(offsets', cs[1..], pos), post,
                FuncHoles(c, |pre|, f), FuncsHoles(cs[1..], pos, f), v);
    }
  }
}
