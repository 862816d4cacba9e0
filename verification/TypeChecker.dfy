/** The validation that every translator relies on: a type stack, a label stack that remembers the
    type-stack height at which each label was entered, and a flag for unreachable code. Each
    function is one callback or helper of `TypeChecker`; `None` is the error result. */
module TypeChecker {
  import opened Syntax

  datatype Kind = FuncLabel | BlockLabel | LoopLabel | IfLabel | ElseLabel

  datatype Label = Label(kind: Kind, params: seq<Type>, results: seq<Type>, limit: nat, unreachable: bool) {
    /** What a branch to the label carries: a loop is re-entered with its parameters. */
    function BrTypes(): seq<Type> {
      if kind == LoopLabel then params else results
    }
  }

  datatype Checker = Checker(types: seq<Type>, labels: seq<Label>) {
    /** The innermost label. With no label open every operation fails before looking at it. */
    function Top(): Label {
      if labels == [] then Label(FuncLabel, [], [], 0, true) else labels[|labels| - 1]
    }

    function LabelAt(depth: nat): Label
      requires depth < |labels|
    {
      labels[|labels| - 1 - depth]
    }
  }

  /** What the module offers to a function body. */
  datatype Ctx = Ctx(funcs: seq<Sig>, globals: seq<Global>, locals: seq<Type>)

  function CtxOf(m: Module, f: nat): Ctx
    requires f < |m.funcs|
  {
    Ctx(seq(|m.funcs|, i requires 0 <= i < |m.funcs| => m.funcs[i].sig), m.globals, LocalTypes(m.funcs[f]))
  }

  predicate Agree(actual: Type, expected: Type) {
    actual == expected || actual == Any || expected == Any
  }

  /** The type `depth` slots below the top; `None` below the label's limit in reachable code. */
  function Peek(tc: Checker, depth: nat): Option<Type> {
    if tc.Top().limit + depth >= |tc.types| then
      if tc.Top().unreachable then Some(Any) else None
    else Some(tc.types[|tc.types| - depth - 1])
  }

  predicate PeekIs(tc: Checker, depth: nat, expected: Type) {
    Peek(tc, depth).Some? && Agree(Peek(tc, depth).value, expected)
  }

  predicate CheckSignature(tc: Checker, sig: seq<Type>) {
    forall i :: 0 <= i < |sig| ==> PeekIs(tc, |sig| - i - 1, sig[i])
  }

  function ResetToLabel(tc: Checker): Checker {
    var limit := tc.Top().limit;
    tc.(types := if limit <= |tc.types| then tc.types[..limit] else tc.types)
  }

  function DropTypes(tc: Checker, n: nat): Option<Checker> {
    if tc.Top().limit + n > |tc.types| then
      if tc.Top().unreachable then Some(ResetToLabel(tc)) else None
    else Some(tc.(types := tc.types[..|tc.types| - n]))
  }

  function PushTypes(tc: Checker, ts: seq<Type>): Checker {
    tc.(types := tc.types + ts)
  }

  function SetTop(tc: Checker, l: Label): Checker {
    if tc.labels == [] then tc else tc.(labels := tc.labels[|tc.labels| - 1 := l])
  }

  function SetUnreachable(tc: Checker): Checker {
    ResetToLabel(SetTop(tc, tc.Top().(unreachable := true)))
  }

  function PopSignature(tc: Checker, sig: seq<Type>): Option<Checker> {
    if CheckSignature(tc, sig) then DropTypes(tc, |sig|) else None
  }

  function PopPush(tc: Checker, params: seq<Type>, results: seq<Type>): Option<Checker> {
    match PopSignature(tc, params)
    case None => None
    case Some(tc1) => Some(PushTypes(tc1, results))
  }

  function BeginFunction(results: seq<Type>): Checker {
    Checker([], [Label(FuncLabel, [], results, 0, false)])
  }

  function EnterLabel(tc: Checker, kind: Kind, sig: Sig): Option<Checker> {
    match PopSignature(tc, sig.params)
    case None => None
    case Some(tc1) =>
      var tc2 := tc1.(labels := tc1.labels + [Label(kind, sig.params, sig.results, |tc1.types|, false)]);
      Some(PushTypes(tc2, sig.params))
  }

  function OnIf(tc: Checker, sig: Sig): Option<Checker> {
    match PopSignature(tc, [I32])
    case None => None
    case Some(tc1) => EnterLabel(tc1, IfLabel, sig)
  }

  function OnElse(tc: Checker): Option<Checker> {
    var l := tc.Top();
    if tc.labels == [] || l.kind != IfLabel then None
    else
      match PopSignature(tc, l.results)
      case None => None
      case Some(tc1) =>
        if |tc1.types| != l.limit then None
        else Some(PushTypes(SetTop(tc1, l.(kind := ElseLabel, unreachable := false)), l.params))
  }

  function LeaveLabel(tc: Checker): Option<Checker> {
    var l := tc.Top();
    match PopSignature(tc, l.results)
    case None => None
    case Some(tc1) =>
      if tc1.labels == [] || |tc1.types| != l.limit then None
      else Some(PushTypes(tc1, l.results).(labels := tc1.labels[..|tc1.labels| - 1]))
  }

  function OnEnd(tc: Checker): Option<Checker> {
    if tc.Top().kind == IfLabel && tc.Top().results != [] then None else LeaveLabel(tc)
  }

  function EndFunction(tc: Checker): Option<Checker> {
    if tc.Top().kind != FuncLabel then None else LeaveLabel(tc)
  }

  function OnBr(tc: Checker, depth: nat): Option<Checker> {
    if depth < |tc.labels| && CheckSignature(tc, tc.LabelAt(depth).BrTypes()) then Some(SetUnreachable(tc))
    else None
  }

  function OnBrIf(tc: Checker, depth: nat): Option<Checker> {
    match PopSignature(tc, [I32])
    case None => None
    case Some(tc1) =>
      if depth < |tc1.labels| then
        PopPush(tc1, tc1.LabelAt(depth).BrTypes(), tc1.LabelAt(depth).BrTypes())
      else None
  }

  /** `OnBrTableTarget`: the target's signature is on the stack and agrees with the first one. */
  predicate TargetOk(tc: Checker, targets: seq<nat>, i: nat)
    requires i < |targets|
  {
    && targets[i] < |tc.labels|
    && targets[0] < |tc.labels|
    && CheckSignature(tc, tc.LabelAt(targets[i]).BrTypes())
    && tc.LabelAt(targets[i]).BrTypes() == tc.LabelAt(targets[0]).BrTypes()
  }

  predicate CheckTargets(tc: Checker, targets: seq<nat>) {
    forall i :: 0 <= i < |targets| ==> TargetOk(tc, targets, i)
  }

  function OnReturn(tc: Checker): Option<Checker> {
    if tc.labels == [] then None
    else
      match PopSignature(tc, tc.labels[0].results)
      case None => None
      case Some(tc1) => Some(SetUnreachable(tc1))
  }

  function OnSelect(tc: Checker): Option<Checker> {
    if !PeekIs(tc, 0, I32) || Peek(tc, 1).None? || !PeekIs(tc, 2, Peek(tc, 1).value) then None
    else
      match DropTypes(tc, 3)
      case None => None
      case Some(tc1) => Some(PushTypes(tc1, [Peek(tc, 1).value]))
  }

  function OnOp(ctx: Ctx, tc: Checker, op: Op): Option<Checker> {
    match op
    case Const(ty, _) => Some(PushTypes(tc, [ty]))
    case Binary(bin) => PopPush(tc, [BinParam(bin), BinParam(bin)], [BinResult(bin)])
    case Drop => DropTypes(tc, 1)
    case Select => OnSelect(tc)
    case Nop => Some(tc)
    case LocalGet(x) => if x < |ctx.locals| then Some(PushTypes(tc, [ctx.locals[x]])) else None
    case LocalSet(x) => if x < |ctx.locals| then PopSignature(tc, [ctx.locals[x]]) else None
    case LocalTee(x) =>
      if x < |ctx.locals| then PopPush(tc, [ctx.locals[x]], [ctx.locals[x]]) else None
    case GlobalGet(g) => if g < |ctx.globals| then Some(PushTypes(tc, [ctx.globals[g].ty])) else None
    case GlobalSet(g) =>
      if g < |ctx.globals| && ctx.globals[g].mutable then PopSignature(tc, [ctx.globals[g].ty]) else None
  }

  function OnCall(ctx: Ctx, tc: Checker, f: nat): Option<Checker> {
    if f < |ctx.funcs| then PopPush(tc, ctx.funcs[f].params, ctx.funcs[f].results) else None
  }

  // ----- What validation keeps ---------------------------------------------------------------

  /** The limits of the open labels grow inwards. */
  predicate Nested(labels: seq<Label>) {
    |labels| <= 1
    || (labels[|labels| - 2].limit <= labels[|labels| - 1].limit && Nested(labels[..|labels| - 1]))
  }

  predicate Wf(tc: Checker) {
    tc.labels != [] && tc.Top().limit <= |tc.types| && Nested(tc.labels)
  }

  /** Nothing below the innermost label changes, and of that label only the unreachable flag. */
  predicate Frame(tc: Checker, tc': Checker) {
    && Wf(tc)
    && Wf(tc')
    && |tc'.labels| == |tc.labels|
    && tc'.labels[..|tc.labels| - 1] == tc.labels[..|tc.labels| - 1]
    && tc'.Top() == tc.Top().(unreachable := tc'.Top().unreachable)
    && tc'.types[..tc.Top().limit] == tc.types[..tc.Top().limit]
  }

  /** `tc'` is `tc` just inside a new label of the given kind. */
  predicate Entered(tc: Checker, tc': Checker, kind: Kind, sig: Sig) {
    && Wf(tc)
    && Wf(tc')
    && |tc'.labels| == |tc.labels| + 1
    && tc'.labels[..|tc.labels|] == tc.labels
    && tc'.Top() == Label(kind, sig.params, sig.results, tc'.Top().limit, false)
    && tc.Top().limit <= tc'.Top().limit <= |tc.types|
    && tc'.types == tc.types[..tc'.Top().limit] + sig.params
  }

  /** `tc'` is `tc` just outside its innermost label. */
  predicate Left(tc: Checker, tc': Checker) {
    && Wf(tc)
    && tc'.labels == tc.labels[..|tc.labels| - 1]
    && tc'.types == tc.types[..tc.Top().limit] + tc.Top().results
  }

  lemma FrameTrans(tc0: Checker, tc1: Checker, tc2: Checker)
    requires Frame(tc0, tc1) && Frame(tc1, tc2)
    ensures Frame(tc0, tc2)
  {
  }

  lemma FrameBody(tc0: Checker, tc1: Checker, tc2: Checker, tc3: Checker, kind: Kind, sig: Sig)
    requires Entered(tc0, tc1, kind, sig) && Frame(tc1, tc2) && Left(tc2, tc3)
    ensures Frame(tc0, tc3)
  {
  }

  lemma ElseEntered(tc0: Checker, tc1: Checker, tc2: Checker, tc3: Checker, sig: Sig)
    requires Entered(tc0, tc1, IfLabel, sig) && Frame(tc1, tc2) && OnElse(tc2) == Some(tc3)
    ensures Entered(tc0, tc3, ElseLabel, sig)
  {
    NestedSet(tc2.labels, tc3.Top());
  }

  lemma NestedSet(labels: seq<Label>, l: Label)
    requires labels != [] && Nested(labels) && l.limit == labels[|labels| - 1].limit
    ensures Nested(labels[|labels| - 1 := l])
  {
    assert labels[|labels| - 1 := l][..|labels| - 1] == labels[..|labels| - 1];
  }

  lemma NestedPush(labels: seq<Label>, l: Label)
    requires Nested(labels) && (labels != [] ==> labels[|labels| - 1].limit <= l.limit)
    ensures Nested(labels + [l])
  {
    assert (labels + [l])[..|labels|] == labels;
  }

  lemma {:induction false} LimitBelow(labels: seq<Label>, i: nat)
    requires Nested(labels) && i < |labels|
    ensures labels[i].limit <= labels[|labels| - 1].limit
    decreases |labels|
  {
    if i < |labels| - 1 {
      LimitBelow(labels[..|labels| - 1], i);
    }
  }

  lemma PopFrame(tc: Checker, sig: seq<Type>)
    requires Wf(tc) && PopSignature(tc, sig).Some?
    ensures Frame(tc, PopSignature(tc, sig).value)
  {
  }

  lemma UnreachableFrame(tc: Checker)
    requires Wf(tc)
    ensures Frame(tc, SetUnreachable(tc))
  {
    NestedSet(tc.labels, tc.Top().(unreachable := true));
  }

  lemma PushFrame(tc: Checker, ts: seq<Type>)
    requires Wf(tc)
    ensures Frame(tc, PushTypes(tc, ts))
  {
  }

  lemma PopPushFrame(tc: Checker, params: seq<Type>, results: seq<Type>)
    requires Wf(tc) && PopPush(tc, params, results).Some?
    ensures Frame(tc, PopPush(tc, params, results).value)
  {
    PopFrame(tc, params);
    PushFrame(PopSignature(tc, params).value, results);
  }

  lemma EnterEntered(tc: Checker, kind: Kind, sig: Sig)
    requires Wf(tc) && EnterLabel(tc, kind, sig).Some?
    ensures Entered(tc, EnterLabel(tc, kind, sig).value, kind, sig)
  {
    NestedPush(tc.labels, EnterLabel(tc, kind, sig).value.Top());
  }

  lemma IfEntered(tc: Checker, sig: Sig)
    requires Wf(tc) && OnIf(tc, sig).Some?
    ensures Entered(tc, OnIf(tc, sig).value, IfLabel, sig)
  {
    PopFrame(tc, [I32]);
    EnterEntered(PopSignature(tc, [I32]).value, IfLabel, sig);
  }

  lemma EndLeft(tc: Checker)
    requires Wf(tc) && LeaveLabel(tc).Some?
    ensures Left(tc, LeaveLabel(tc).value)
  {
  }

  lemma OnEndLeft(tc: Checker)
    requires Wf(tc) && OnEnd(tc).Some?
    ensures Left(tc, OnEnd(tc).value)
  {
    EndLeft(tc);
  }

  lemma OpFrame(ctx: Ctx, tc: Checker, op: Op)
    requires Wf(tc) && OnOp(ctx, tc, op).Some?
    ensures Frame(tc, OnOp(ctx, tc, op).value)
  {
    match op
    case Binary(bin) => PopPushFrame(tc, [BinParam(bin), BinParam(bin)], [BinResult(bin)]);
    case LocalTee(x) => PopPushFrame(tc, [ctx.locals[x]], [ctx.locals[x]]);
    case LocalSet(x) => PopFrame(tc, [ctx.locals[x]]);
    case GlobalSet(g) => PopFrame(tc, [ctx.globals[g].ty]);
    case _ =>
  }
}
