/** Calls between bodies: functions are laid out in order, and a call to a function that has not
    been reached yet waits in that function's fixup list. */
module Linking {
  import opened Syntax
  import opened Bytecode
  import opened TypeChecker
  import opened Elaborate
  import opened Layout
  import opened Emission

  /** The first `k` function bodies, if all of them validate. */
  function ElabFuncs(m: Module, k: nat): (r: Option<seq<FuncCode>>)
    requires k <= |m.funcs|
    ensures r.Some? ==> |r.value| == k
    decreases k
  {
    if k == 0 then Some([])
    else
      match ElabFuncs(m, k - 1)
      case None => None
      case Some(cs) =>
        match ElabFunc(m, k - 1)
        case None => None
        case Some(c) => Some(cs + [c])
  }

  /** Where function `k` starts when the first one starts at `pos`. */
  function FuncPos(cs: seq<FuncCode>, pos: nat, k: nat): nat
    requires k <= |cs|
    decreases k
  {
    if k == 0 then pos else FuncPos(cs, pos, k - 1) + FuncSize(cs[k - 1])
  }

  function FuncOffsets(cs: seq<FuncCode>, pos: nat): (r: seq<nat>)
    ensures |r| == |cs| && forall k :: 0 <= k < |cs| ==> r[k] == FuncPos(cs, pos, k)
  {
    seq(|cs|, k requires 0 <= k < |cs| => FuncPos(cs, pos, k))
  }

  /** The whole module's code, every branch and call resolved. */
  function Link(cs: seq<FuncCode>, pos: nat): seq<Byte> {
    GenFuncs(FuncOffsets(cs, pos), cs, pos)
  }

  lemma {:induction false} FuncPosShift(cs: seq<FuncCode>, pos: nat, k: nat)
    requires 0 < |cs| && k < |cs|
    ensures FuncPos(cs, pos, k + 1) == FuncPos(cs[1..], pos + FuncSize(cs[0]), k)
    decreases k
  {
    hide FuncSize;
    if k > 0 {
      FuncPosShift(cs, pos, k - 1);
    }
  }

  lemma {:induction false} FuncPosPrefix(cs: seq<FuncCode>, c: FuncCode, pos: nat, k: nat)
    requires k <= |cs|
    ensures FuncPos(cs + [c], pos, k) == FuncPos(cs, pos, k)
    decreases k
  {
    if k > 0 {
      FuncPosPrefix(cs, c, pos, k - 1);
    }
  }

  lemma {:induction false} GenFuncsSnoc(offsets: seq<nat>, cs: seq<FuncCode>, c: FuncCode, pos: nat, f: nat)
    ensures GenFuncs(offsets, cs + [c], pos) == GenFuncs(offsets, cs, pos) + GenFunc(offsets, c, FuncPos(cs, pos, |cs|))
    ensures FuncsHoles(cs + [c], pos, f) == FuncsHoles(cs, pos, f) + FuncHoles(c, FuncPos(cs, pos, |cs|), f)
    decreases |cs|
  {
    hide GenFunc, FuncHoles, FuncSize;
    if cs == [] {
      assert cs + [c] == [c];
    } else {
      assert (cs + [c])[1..] == cs[1..] + [c];
      FuncPosShift(cs, pos, |cs| - 1);
      GenFuncsSnoc(offsets, cs[1..], c, pos + FuncSize(cs[0]), f);
    }
  }

  lemma {:induction false} GenFuncsSize(offsets: seq<nat>, cs: seq<FuncCode>, pos: nat)
    ensures pos + |GenFuncs(offsets, cs, pos)| == FuncPos(cs, pos, |cs|)
    decreases |cs|
  {
    hide GenFunc, FuncSize;
    if cs != [] {
      GenFuncSize(offsets, cs[0], pos);
      FuncPosShift(cs, pos, |cs| - 1);
      GenFuncsSize(offsets, cs[1..], pos + FuncSize(cs[0]));
    }
  }

  /** Every function's resolved code stands at its offset. */
  lemma {:induction false} LinkedAt(code: seq<Byte>, offsets: seq<nat>, cs: seq<FuncCode>, pos: nat, k: nat)
    requires CodeAt(code, pos, GenFuncs(offsets, cs, pos)) && k < |cs|
    ensures CodeAt(code, FuncPos(cs, pos, k), GenFunc(offsets, cs[k], FuncPos(cs, pos, k)))
    decreases |cs|
  {
    hide GenFunc, FuncSize, CodeAt;
    var next := pos + FuncSize(cs[0]);
    CodeAtSplit(code, pos, GenFunc(offsets, cs[0], pos), GenFuncs(offsets, cs[1..], next));
    GenFuncSize(offsets, cs[0], pos);
    if k > 0 {
      FuncPosShift(cs, pos, k - 1);
      LinkedAt(code, offsets, cs[1..], next, k - 1);
    }
  }

  /** After the bodies `cs`: earlier calls to them are resolved, later functions still wait. */
  predicate Progress(base: seq<Byte>, istream: seq<Byte>, offsets: seq<nat>, fixups: seq<seq<nat>>, cs: seq<FuncCode>) {
    && |cs| <= |offsets| == |fixups|
    && istream == base + GenFuncs(offsets, cs, |base|)
    && (forall f :: |cs| <= f < |offsets| ==> offsets[f] == INVALID && fixups[f] == FuncsHoles(cs, |base|, f))
    && (forall f :: 0 <= f < |cs| ==> offsets[f] == FuncPos(cs, |base|, f))
  }

  /** `BeginFunctionBody` resolves the calls that were waiting for this function. */
  lemma FuncBegun(base: seq<Byte>, istream: seq<Byte>, offsets: seq<nat>, fixups: seq<seq<nat>>, cs: seq<FuncCode>)
    requires Progress(base, istream, offsets, fixups, cs) && |cs| < |offsets|
    ensures PatchAll(istream, fixups[|cs|], |istream|) == base + GenFuncs(offsets[|cs| := |istream|], cs, |base|)
    ensures |istream| == FuncPos(cs, |base|, |cs|)
  {
    hide GenFuncs, FuncsHoles, PatchAll;
    PatchFuncs(base, offsets, cs, [], |cs|, |istream|);
    assert base + GenFuncs(offsets, cs, |base|) + [] == istream;
    assert base + GenFuncs(offsets[|cs| := |istream|], cs, |base|) + []
        == base + GenFuncs(offsets[|cs| := |istream|], cs, |base|);
    GenFuncsSize(offsets, cs, |base|);
  }

  /** Between `BeginFunctionBody` and `EndFunctionBody` exactly the function's code was emitted. */
  lemma FuncEmitted(pre: seq<Byte>, s0: Stream, s1: Stream, c: FuncCode)
    requires s0.Wf() && s0.istream == pre + EncodeAll(c.alloca)
    requires |s0.labels| == 1 && s0.labels[0].offset == INVALID && s0.depthFixups == []
    requires EmittedList(s0, s1, c.body)
    ensures PatchAll(s1.istream, FixupsAt(s1.depthFixups, 0), |s1.istream|) + EncodeAll(c.exit)
            == pre + GenFunc(s0.offsets, c, |pre|)
  {
    hide GenList, HolesList, PatchAll, SizeList, EncodeAll, Offsets;
    var a := EncodeAll(c.alloca);
    var start := |pre| + |a|;
    var end := start + SizeList(c.body);
    var env := Env([INVALID], s0.offsets);
    assert Offsets(s0.labels) == [INVALID];
    GenListSize(env, c.body, start);
    PatchGenList(pre + a, env, c.body, [], LabelRef(0), end);
    assert [INVALID][0 := end] == [end];
    assert EnvOf(s0) == env;
    assert (pre + a) + GenList(env, c.body, start) + [] == s1.istream;
    assert FixupsAt(s1.depthFixups, 0) == HolesList(c.body, start, 1, LabelRef(0));
    var b := GenList(Env([end], s0.offsets), c.body, start);
    assert (pre + a) + b + [] + EncodeAll(c.exit) == pre + (a + (b + EncodeAll(c.exit)));
  }

  /** `Progress` just after `BeginFunctionBody` of function `|cs|`. */
  predicate Begun(base: seq<Byte>, pre: seq<Byte>, offsets: seq<nat>, fixups: seq<seq<nat>>, cs: seq<FuncCode>) {
    && |cs| < |offsets| == |fixups|
    && pre == base + GenFuncs(offsets, cs, |base|)
    && |pre| == FuncPos(cs, |base|, |cs|)
    && (forall f :: 0 <= f <= |cs| ==> offsets[f] == FuncPos(cs, |base|, f))
    && (forall f :: |cs| < f < |offsets| ==> offsets[f] == INVALID && fixups[f] == FuncsHoles(cs, |base|, f))
  }

  /** What the body `c` of function `k` adds to the fixups of later functions. */
  predicate FixupsGrown(fixups: seq<seq<nat>>, fixups': seq<seq<nat>>, c: FuncCode, pos: nat, k: nat) {
    && |fixups'| == |fixups|
    && forall f :: k < f < |fixups| ==> fixups'[f] == fixups[f] + FuncHoles(c, pos, f)
  }

  lemma LaterHoles(base: seq<Byte>, pre: seq<Byte>, offsets: seq<nat>, fixups: seq<seq<nat>>, fixups': seq<seq<nat>>,
                   cs: seq<FuncCode>, c: FuncCode)
    requires Begun(base, pre, offsets, fixups, cs) && FixupsGrown(fixups, fixups', c, |pre|, |cs|)
    ensures |fixups'| == |offsets|
    ensures forall f :: |cs| + 1 <= f < |offsets|
              ==> offsets[f] == INVALID && fixups'[f] == FuncsHoles(cs + [c], |base|, f)
  {
    hide GenFuncs, FuncsHoles, GenFunc, FuncHoles, FuncPos;
    forall f | |cs| + 1 <= f < |offsets| ensures fixups'[f] == FuncsHoles(cs + [c], |base|, f) {
      GenFuncsSnoc([], cs, c, |base|, f);
    }
  }

  lemma EarlierOffsets(base: seq<Byte>, pre: seq<Byte>, offsets: seq<nat>, fixups: seq<seq<nat>>, cs: seq<FuncCode>,
                       c: FuncCode)
    requires Begun(base, pre, offsets, fixups, cs)
    ensures |cs + [c]| <= |offsets|
    ensures forall f :: 0 <= f < |cs + [c]| ==> offsets[f] == FuncPos(cs + [c], |base|, f)
  {
    hide FuncPos, GenFuncs, FuncsHoles;
    forall f | 0 <= f <= |cs| ensures offsets[f] == FuncPos(cs + [c], |base|, f) {
      FuncPosPrefix(cs, c, |base|, f);
    }
  }

  lemma BegunCode(base: seq<Byte>, pre: seq<Byte>, offsets: seq<nat>, fixups: seq<seq<nat>>, cs: seq<FuncCode>)
    requires Begun(base, pre, offsets, fixups, cs)
    ensures pre == base + GenFuncs(offsets, cs, |base|) && |pre| == FuncPos(cs, |base|, |cs|)
  {
  }

  lemma GrownCode(base: seq<Byte>, pre: seq<Byte>, gs: seq<Byte>, g: seq<Byte>, all: seq<Byte>)
    requires pre == base + gs && all == gs + g
    ensures pre + g == base + all
  {
  }

  lemma FuncProgress(base: seq<Byte>, pre: seq<Byte>, offsets: seq<nat>, fixups: seq<seq<nat>>, fixups': seq<seq<nat>>,
                     cs: seq<FuncCode>, c: FuncCode)
    requires Begun(base, pre, offsets, fixups, cs) && FixupsGrown(fixups, fixups', c, |pre|, |cs|)
    ensures Progress(base, pre + GenFunc(offsets, c, |pre|), offsets, fixups', cs + [c])
  {
    hide GenFuncs, FuncsHoles, GenFunc, FuncHoles, FuncPos, Begun, FixupsGrown;
    LaterHoles(base, pre, offsets, fixups, fixups', cs, c);
    EarlierOffsets(base, pre, offsets, fixups, cs, c);
    BegunCode(base, pre, offsets, fixups, cs);
    GenFuncsSnoc(offsets, cs, c, |base|, 0);
    GrownCode(base, pre, GenFuncs(offsets, cs, |base|), GenFunc(offsets, c, |pre|),
              GenFuncs(offsets, cs + [c], |base|));
  }

  lemma ProgressLinked(base: seq<Byte>, istream: seq<Byte>, offsets: seq<nat>, fixups: seq<seq<nat>>, cs: seq<FuncCode>)
    requires Progress(base, istream, offsets, fixups, cs) && |cs| == |offsets|
    ensures istream == base + Link(cs, |base|) && offsets == FuncOffsets(cs, |base|)
  {
    assert offsets == FuncOffsets(cs, |base|);
  }

  lemma ProgressBegun(base: seq<Byte>, istream: seq<Byte>, offsets: seq<nat>, fixups: seq<seq<nat>>, cs: seq<FuncCode>)
    requires Progress(base, istream, offsets, fixups, cs) && |cs| < |offsets|
    ensures Begun(base, PatchAll(istream, fixups[|cs|], |istream|), offsets[|cs| := |istream|], fixups, cs)
    ensures |PatchAll(istream, fixups[|cs|], |istream|)| == |istream| == FuncPos(cs, |base|, |cs|)
    ensures forall f :: |cs| < f < |offsets| ==> offsets[f] == INVALID
  {
    hide GenFuncs, FuncsHoles, PatchAll;
    FuncBegun(base, istream, offsets, fixups, cs);
  }

  lemma FuncGrown(pre: seq<Byte>, s0: Stream, s1: Stream, c: FuncCode, k: nat)
    requires s0.Wf() && EmittedList(s0, s1, c.body) && |s0.labels| == 1
    requires s0.istream == pre + EncodeAll(c.alloca)
    requires forall f :: k < f < |s0.offsets| ==> s0.offsets[f] == INVALID
    ensures FixupsGrown(s0.funcFixups, s1.funcFixups, c, |pre|, k)
  {
    hide EncodeAll, HolesList, GenList;
    forall f | k < f < |s0.offsets|
      ensures s1.funcFixups[f] == s0.funcFixups[f] + FuncHoles(c, |pre|, f)
    {
      assert s1.funcFixups[f] == FixupsAt(s1.funcFixups, f) && s0.funcFixups[f] == FixupsAt(s0.funcFixups, f);
    }
  }

  lemma {:induction false} ElabFuncsNone(m: Module, k: nat, n: nat)
    requires k <= n <= |m.funcs| && ElabFuncs(m, k).None?
    ensures ElabFuncs(m, n).None?
    decreases n
  {
    hide ElabFunc;
    if k < n {
      ElabFuncsNone(m, k, n - 1);
    }
  }

  lemma LinkSize(cs: seq<FuncCode>, pos: nat)
    ensures pos + |Link(cs, pos)| == FuncPos(cs, pos, |cs|)
  {
    GenFuncsSize(FuncOffsets(cs, pos), cs, pos);
  }

  lemma ProgressShape(base: seq<Byte>, istream: seq<Byte>, offsets: seq<nat>, fixups: seq<seq<nat>>, cs: seq<FuncCode>)
    requires Progress(base, istream, offsets, fixups, cs)
    ensures |cs| <= |offsets| == |fixups|
    ensures |istream| == FuncPos(cs, |base|, |cs|)
  {
    hide GenFuncs, FuncsHoles;
    GenFuncsSize(offsets, cs, |base|);
  }
}
