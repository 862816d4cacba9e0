/** Where the one-pass compiler may write. It overwrites operands at offsets that it recorded earlier,
    without looking at them again; that those all lie behind the code of earlier modules is an invariant
    of the callbacks, whether or not the module turns out to be valid. */
module Confinement {
  import opened Syntax
  import opened TypeChecker
  import opened Bytecode
  import opened Elaborate
  import opened Layout
  import opened Emission

  /** Every recorded offset is `n` or more. */
  predicate AllFrom(fixups: seq<seq<nat>>, n: nat) {
    forall i, k :: 0 <= i < |fixups| && 0 <= k < |fixups[i]| ==> fixups[i][k] >= n
  }

  predicate HasPendingJump(kind: Kind) {
    kind == IfLabel || kind == ElseLabel
  }

  /** So is the pending jump of every open `if` and `else`. */
  predicate JumpsFrom(targets: seq<Target>, labels: seq<Label>, n: nat) {
    |targets| == |labels|
    && forall i :: 0 <= i < |labels| && HasPendingJump(labels[i].kind) ==> targets[i].fixup >= n
  }

  /** The stream still starts with `base`, and nothing that is recorded points into it. */
  predicate Confined(base: seq<Byte>, s: Stream, labels: seq<Label>) {
    && base <= s.istream
    && AllFrom(s.depthFixups, |base|) && AllFrom(s.funcFixups, |base|)
    && JumpsFrom(s.labels, labels, |base|)
  }

  // ----- Overwriting --------------------------------------------------------------------------------------

  lemma PatchKeeps(base: seq<Byte>, code: seq<Byte>, at: nat, v: int)
    requires base <= code && |base| <= at
    ensures base <= Patch(code, at, v)
  {
    hide U32;
    assert Patch(code, at, v)[..|base|] == code[..|base|];
  }

  lemma {:induction false} PatchAllKeeps(base: seq<Byte>, code: seq<Byte>, ats: seq<nat>, v: int)
    requires base <= code && forall k :: 0 <= k < |ats| ==> ats[k] >= |base|
    ensures base <= PatchAll(code, ats, v)
    decreases |ats|
  {
    hide Patch;
    if ats != [] {
      PatchKeeps(base, code, ats[0], v);
      PatchAllKeeps(base, Patch(code, ats[0], v), ats[1..], v);
    }
  }

  lemma AppendFrom(fixups: seq<seq<nat>>, i: nat, at: nat, n: nat)
    requires AllFrom(fixups, n) && n <= at
    ensures AllFrom(AppendFixup(fixups, i, at), n)
  {
    var r := AppendFixup(fixups, i, at);
    forall j, k | 0 <= j < |r| && 0 <= k < |r[j]|
      ensures r[j][k] >= n
    {
      assert r[j] == FixupsAt(r, j) == FixupsAt(fixups, j) + if j == i then [at] else [];
    }
  }

  lemma FromAt(fixups: seq<seq<nat>>, i: int, n: nat)
    requires AllFrom(fixups, n)
    ensures forall k :: 0 <= k < |FixupsAt(fixups, i)| ==> FixupsAt(fixups, i)[k] >= n
  {
  }

  // ----- Emitting -----------------------------------------------------------------------------------------

  lemma AppendConfined(base: seq<Byte>, s: Stream, labels: seq<Label>, bytes: seq<Byte>)
    requires Confined(base, s, labels)
    ensures Confined(base, AppendBytes(s, bytes), labels)
  {
  }

  lemma BrOffsetConfined(base: seq<Byte>, s: Stream, labels: seq<Label>, depth: nat)
    requires Confined(base, s, labels) && depth < |s.labels|
    ensures Confined(base, BrOffset(s, depth), labels)
  {
    hide U32, AppendFixup, AllFrom;
    AppendFrom(s.depthFixups, |s.labels| - 1 - depth, |s.istream|, |base|);
  }

  lemma CallConfined(base: seq<Byte>, s: Stream, labels: seq<Label>, f: nat)
    requires Confined(base, s, labels) && f < |s.offsets|
    ensures Confined(base, CallOffset(s, f), labels)
  {
    hide U32, AppendFixup, AllFrom;
    AppendFrom(s.funcFixups, f, |s.istream|, |base|);
  }

  lemma BrConfined(base: seq<Byte>, s: Stream, labels: seq<Label>, j: Jump)
    requires Confined(base, s, labels) && j.depth < |s.labels|
    ensures Confined(base, BrStream(s, j), labels)
  {
    hide Confined, BrOffset, DropKeepCode;
    var s1 := AppendBytes(s, DropKeepCode(j));
    AppendConfined(base, s, labels, DropKeepCode(j));
    AppendConfined(base, s1, labels, [Opcode(IBr(0))]);
    BrOffsetConfined(base, AppendBytes(s1, [Opcode(IBr(0))]), labels, j.depth);
  }

  lemma PatchConfined(base: seq<Byte>, s: Stream, labels: seq<Label>, at: nat, v: int)
    requires Confined(base, s, labels) && |base| <= at
    ensures Confined(base, s.(istream := Patch(s.istream, at, v)), labels)
  {
    hide Patch, AllFrom, JumpsFrom;
    PatchKeeps(base, s.istream, at, v);
  }

  lemma EntryConfined(base: seq<Byte>, s: Stream, labels: seq<Label>, j: Jump)
    requires Confined(base, s, labels) && j.depth < |s.labels|
    ensures Confined(base, EntryStream(s, j), labels)
  {
    hide Confined, BrOffset, U32;
    BrOffsetConfined(base, s, labels, j.depth);
    AppendConfined(base, BrOffset(s, j.depth), labels, U32(j.drop));
    AppendConfined(base, AppendBytes(BrOffset(s, j.depth), U32(j.drop)), labels, U32(j.keep));
  }

  lemma TableConfined(base: seq<Byte>, s: Stream, labels: seq<Label>, n: nat)
    requires Confined(base, s, labels)
    ensures Confined(base, TableStream(s, n), labels)
  {
    hide Encode, Patch, AllFrom, JumpsFrom;
    var bytes := Encode(IBrTable(n - 1, INVALID)) + Encode(IData(12 * n));
    AppendConfined(base, s, labels, bytes);
    PatchConfined(base, AppendBytes(s, bytes), labels, |s.istream| + 5, |AppendBytes(s, bytes).istream|);
  }

  // ----- Labels -------------------------------------------------------------------------------------------

  lemma EnterConfined(base: seq<Byte>, s: Stream, tc: Checker, tc': Checker, t: Target, kind: Kind, sig: Sig)
    requires Confined(base, s, tc.labels) && Entered(tc, tc', kind, sig) && (HasPendingJump(kind) ==> t.fixup >= |base|)
    ensures Confined(base, EnterTarget(s, t), tc'.labels)
  {
    hide AllFrom, Nested;
    forall i | 0 <= i < |tc'.labels| && HasPendingJump(tc'.labels[i].kind)
      ensures EnterTarget(s, t).labels[i].fixup >= |base|
    {
      if i < |tc.labels| {
        assert tc'.labels[i] == tc.labels[i];
      }
    }
  }

  lemma EnterIfConfined(base: seq<Byte>, s: Stream, tc: Checker, tc': Checker, sig: Sig)
    requires Confined(base, s, tc.labels) && Entered(tc, tc', IfLabel, sig)
    ensures Confined(base, EnterIf(s), tc'.labels)
  {
    hide Confined, Entered, Encode;
    AppendConfined(base, s, tc.labels, Encode(IBrUnless(INVALID)));
    assert |s.istream| + 1 >= |base| by {
      ConfinedSize(base, s, tc.labels);
    }
    EnterConfined(base, AppendBytes(s, Encode(IBrUnless(INVALID))), tc, tc', Target(INVALID, |s.istream| + 1), IfLabel,
                  sig);
  }

  lemma ConfinedSize(base: seq<Byte>, s: Stream, labels: seq<Label>)
    requires Confined(base, s, labels)
    ensures |base| <= |s.istream|
  {
  }

  lemma FrameConfined(base: seq<Byte>, s: Stream, tc: Checker, tc': Checker)
    requires Confined(base, s, tc.labels) && Frame(tc, tc')
    ensures Confined(base, s, tc'.labels)
  {
    hide AllFrom, Nested;
    forall i | 0 <= i < |tc'.labels| && HasPendingJump(tc'.labels[i].kind)
      ensures s.labels[i].fixup >= |base|
    {
      if i < |tc.labels| - 1 {
        assert tc'.labels[i] == tc'.labels[..|tc.labels| - 1][i] == tc.labels[i];
      }
    }
  }

  lemma DivideConfined(base: seq<Byte>, s: Stream, tc: Checker)
    requires Confined(base, s, tc.labels) && tc.labels != [] && OnElse(tc).Some?
    ensures s.labels != [] && Confined(base, Divide(s), OnElse(tc).value.labels)
  {
    hide AllFrom, Patch, Encode, PopSignature;
    var n := |tc.labels|;
    ElseLabels(tc);
    PatchKeeps(base, s.istream + Encode(IBr(INVALID)), s.labels[n - 1].fixup, |s.istream + Encode(IBr(INVALID))|);
  }

  lemma ElseLabels(tc: Checker)
    requires tc.labels != [] && OnElse(tc).Some?
    ensures tc.Top().kind == IfLabel && |OnElse(tc).value.labels| == |tc.labels|
    ensures OnElse(tc).value.labels[..|tc.labels| - 1] == tc.labels[..|tc.labels| - 1]
  {
  }

  lemma CloseConfined(base: seq<Byte>, s: Stream, tc: Checker, tc': Checker)
    requires Confined(base, s, tc.labels) && tc.labels != [] && tc'.labels == tc.labels[..|tc.labels| - 1]
    ensures s.labels != [] && Confined(base, CloseTarget(s), tc'.labels)
    ensures HasPendingJump(tc.Top().kind) ==> Confined(base, CloseIf(s), tc'.labels)
  {
    hide PatchAll, Patch, AllFrom;
    var n := |s.labels| - 1;
    CloseKeeps(base, s, tc, tc');
    if HasPendingJump(tc.Top().kind) {
      var s1 := s.(istream := Patch(s.istream, s.labels[n].fixup, |s.istream|));
      PatchConfined(base, s, tc.labels, s.labels[n].fixup, |s.istream|);
      CloseKeeps(base, s1, tc, tc');
    }
  }

  lemma CloseKeeps(base: seq<Byte>, s: Stream, tc: Checker, tc': Checker)
    requires Confined(base, s, tc.labels) && tc.labels != [] && tc'.labels == tc.labels[..|tc.labels| - 1]
    ensures s.labels != [] && Confined(base, CloseTarget(s), tc'.labels)
  {
    hide PatchAll;
    var n := |s.labels| - 1;
    FromAt(s.depthFixups, n, |base|);
    PatchAllKeeps(base, s.istream, FixupsAt(s.depthFixups, n), |s.istream|);
  }

  lemma ConfinedBase(base: seq<Byte>, s: Stream, labels: seq<Label>)
    requires Confined(base, s, labels)
    ensures base <= s.istream
  {
  }

  lemma BrIfConfined(base: seq<Byte>, s: Stream, tc: Checker, tc': Checker, j: Jump)
    requires Confined(base, s, tc.labels) && Frame(tc, tc') && j.depth < |s.labels|
    ensures Confined(base, BrIfStream(s, j), tc'.labels)
  {
    hide Confined, Frame, Encode, BrStream, Patch;
    ConfinedSize(base, s, tc.labels);
    FrameConfined(base, s, tc, tc');
    var s1 := AppendBytes(s, Encode(IBrUnless(INVALID)));
    AppendConfined(base, s, tc'.labels, Encode(IBrUnless(INVALID)));
    BrConfined(base, s1, tc'.labels, j);
    PatchConfined(base, BrStream(s1, j), tc'.labels, |s.istream| + 1, |BrStream(s1, j).istream|);
  }
}
