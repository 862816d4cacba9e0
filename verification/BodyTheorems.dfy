/** What writer and reader of function bodies promise together. */
module BodyTheorems {
  import opened Syntax
  import opened Bytecode
  import opened Leb128
  import opened TypeChecker
  import opened BinaryFormat
  import opened FunctionBody

  const EMPTY_BODY: seq<LabelNode> := [LabelNode(FuncLabel, [])]

  /** `WriteFunc` without the locals. */
  function EncodeBody(f: Format, es: ExprList): (c: seq<Byte>)
    ensures |c| >= 1
  {
    EncodeTokens(f, ListTokens(es) + [EndToken])
  }

  // ----- Written, then read -----------------------------------------------------------------------------------

  /** Reading a written body rebuilds its tree. */
  lemma ReadBodyBack(f: Format, p: seq<Byte>, at: nat, readEnd: nat, es: ExprList)
    requires readEnd <= |p| && ListOk(f, es)
    requires CodeAt(p, at, EncodeBody(f, es)) && at + |EncodeBody(f, es)| <= readEnd
    ensures ReadBody(f, p, at, at + |EncodeBody(f, es)|, readEnd, EMPTY_BODY)
         == Some([LabelNode(FuncLabel, Items(CanonList(es)))])
  {
    hide CodeAt, EncodeTokens, ReadBody, Replay, TokenOk;
    ReplayList(f, EMPTY_BODY, es);
    ReadTokensBack(f, p, at, readEnd, ListTokens(es), EMPTY_BODY);
    assert [] + Items(CanonList(es)) == Items(CanonList(es));
    assert Grow(EMPTY_BODY, Items(CanonList(es))) == [LabelNode(FuncLabel, Items(CanonList(es)))];
  }

  /** Trees as the reader builds them. */
  predicate Canonical(es: ExprList) {
    match es
    case Nil => true
    case Cons(e, rest) => CanonicalExpr(e) && Canonical(rest)
  }

  predicate CanonicalExpr(e: Expr) {
    match e
    case Simple(Const(ty, v)) => (ty == I32 || ty == F32) ==> v < TWO_32
    case Block(_, body) => Canonical(body)
    case Loop(_, body) => Canonical(body)
    case If(_, thn, hasElse, els) => Canonical(thn) && Canonical(els) && (hasElse <==> els != Nil)
    case _ => true
  }

  lemma {:induction false} CanonicalFixed(es: ExprList)
    ensures CanonList(es) == es <==> Canonical(es)
    ensures Canonical(CanonList(es)) && (CanonList(es) == Nil <==> es == Nil)
  {
    match es
    case Nil =>
    case Cons(e, rest) => CanonicalFixedExpr(e); CanonicalFixed(rest);
  }

  lemma {:induction false} CanonicalFixedExpr(e: Expr)
    ensures CanonExpr(e) == e <==> CanonicalExpr(e)
    ensures CanonicalExpr(CanonExpr(e))
  {
    match e
    case Block(_, body) => CanonicalFixed(body);
    case Loop(_, body) => CanonicalFixed(body);
    case If(_, thn, hasElse, els) =>
      CanonicalFixed(thn);
      CanonicalFixed(els);
    case _ =>
  }

  /** Exactly the canonical trees come back unchanged. */
  lemma RoundTrip(f: Format, es: ExprList)
    requires ListOk(f, es)
    ensures var c := EncodeBody(f, es);
            ReadBody(f, c, 0, |c|, |c|, EMPTY_BODY) == Some([LabelNode(FuncLabel, Items(es))]) <==> Canonical(es)
  {
    hide EncodeBody, ReadBody, Canonical, CanonList, Items;
    var c := EncodeBody(f, es);
    assert c[0..0 + |c|] == c;
    ReadBodyBack(f, c, 0, |c|, es);
    CanonicalFixed(es);
    ToListItems(es);
    ToListItems(CanonList(es));
  }

  // ----- Depths -------------------------------------------------------------------------------------------------

  function DepthStep(t: Token): int {
    if t.Open? then 1 else if t.EndToken? then -1 else 0
  }

  /** How many labels are open. */
  function Depth(ts: seq<Token>): int {
    if ts == [] then 0 else DepthStep(ts[0]) + Depth(ts[1..])
  }

  lemma {:induction false} DepthAppend(a: seq<Token>, b: seq<Token>)
    ensures Depth(a + b) == Depth(a) + Depth(b)
  {
    if a == [] {
      assert a + b == b;
    } else {
      assert (a + b)[1..] == a[1..] + b;
      DepthAppend(a[1..], b);
    }
  }

  /** Never below `-d` on the way. */
  predicate StaysAbove(ts: seq<Token>, d: int) {
    d >= 0 && (ts != [] ==> StaysAbove(ts[1..], d + DepthStep(ts[0])))
  }

  lemma {:induction false} AboveAt(ts: seq<Token>, d: int, i: nat)
    requires StaysAbove(ts, d) && i <= |ts|
    ensures Depth(ts[..i]) + d >= 0
    decreases i
  {
    if i > 0 {
      AboveAt(ts[1..], d + DepthStep(ts[0]), i - 1);
      assert ts[..i][1..] == ts[1..][..i - 1];
    }
  }

  lemma {:induction false} AboveList(es: ExprList, rest: seq<Token>, d: int)
    requires d >= 0 && StaysAbove(rest, d)
    ensures StaysAbove(ListTokens(es) + rest, d) && Depth(ListTokens(es)) == 0
    decreases es, 0
  {
    match es
    case Nil => assert [] + rest == rest;
    case Cons(e, more) =>
      AboveList(more, rest, d);
      AboveExpr(e, ListTokens(more) + rest, d);
      DepthAppend(ExprTokens(e), ListTokens(more));
      assert ListTokens(es) + rest == ExprTokens(e) + (ListTokens(more) + rest);
  }

  lemma {:induction false} AboveExpr(e: Expr, rest: seq<Token>, d: int)
    requires d >= 0 && StaysAbove(rest, d)
    ensures StaysAbove(ExprTokens(e) + rest, d) && Depth(ExprTokens(e)) == 0
    decreases e, 1
  {
    match e
    case Block(sig, body) => AboveNest(Open(BlockLabel, sig), body, rest, d);
    case Loop(sig, body) => AboveNest(Open(LoopLabel, sig), body, rest, d);
    case If(sig, thn, hasElse, els) =>
      if hasElse && els != Nil {
        AboveIfElse(sig, thn, els, rest, d);
      } else {
        assert ExprTokens(e) == [Open(IfLabel, sig)] + (ListTokens(thn) + [EndToken]);
        AboveNest(Open(IfLabel, sig), thn, rest, d);
      }
    case _ =>
      assert ([Leaf(e)] + rest)[1..] == rest;
      assert [Leaf(e)][1..] == [];
  }

  lemma AboveOne(t: Token, rest: seq<Token>, d: int)
    requires d >= 0 && StaysAbove(rest, d + DepthStep(t))
    ensures StaysAbove([t] + rest, d) && Depth([t]) == DepthStep(t)
  {
    assert ([t] + rest)[1..] == rest && [t][1..] == [];
  }

  lemma {:induction false} AboveNest(open: Token, body: ExprList, rest: seq<Token>, d: int)
    requires d >= 0 && StaysAbove(rest, d) && open.Open?
    ensures var ts := [open] + (ListTokens(body) + [EndToken]); StaysAbove(ts + rest, d) && Depth(ts) == 0
    decreases body, 1
  {
    hide StaysAbove;
    AboveOne(EndToken, rest, d + 1);
    AboveList(body, [EndToken] + rest, d + 1);
    AboveOne(open, ListTokens(body) + ([EndToken] + rest), d);
    DepthAppend(ListTokens(body), [EndToken]);
    DepthAppend([open], ListTokens(body) + [EndToken]);
    assert ([open] + (ListTokens(body) + [EndToken])) + rest == [open] + (ListTokens(body) + ([EndToken] + rest));
  }

  lemma {:induction false} AboveIfElse(sig: Sig, thn: ExprList, els: ExprList, rest: seq<Token>, d: int)
    requires d >= 0 && StaysAbove(rest, d)
    ensures var ts := [Open(IfLabel, sig)] + (ListTokens(thn) + (([ElseToken] + ListTokens(els)) + [EndToken]));
            StaysAbove(ts + rest, d) && Depth(ts) == 0
    decreases If(sig, thn, true, els), 0
  {
    hide StaysAbove, Depth;
    var t0, t1, t2 := Open(IfLabel, sig), ListTokens(thn), ListTokens(els);
    AboveOne(EndToken, rest, d + 1);
    AboveList(els, [EndToken] + rest, d + 1);
    AboveOne(ElseToken, t2 + ([EndToken] + rest), d + 1);
    AboveList(thn, [ElseToken] + (t2 + ([EndToken] + rest)), d + 1);
    AboveOne(t0, t1 + ([ElseToken] + (t2 + ([EndToken] + rest))), d);
    DepthAppend([ElseToken], t2);
    DepthAppend([ElseToken] + t2, [EndToken]);
    DepthAppend(t1, ([ElseToken] + t2) + [EndToken]);
    DepthAppend([t0], t1 + (([ElseToken] + t2) + [EndToken]));
    SixJoined([t0], t1, [ElseToken], t2, [EndToken], rest);
  }

  lemma SixJoined(a: seq<Token>, b: seq<Token>, c: seq<Token>, d: seq<Token>, e: seq<Token>, f: seq<Token>)
    ensures (a + (b + ((c + d) + e))) + f == a + (b + (c + (d + (e + f))))
  {
  }

  lemma {:induction false} EncodeAppend(f: Format, a: seq<Token>, b: seq<Token>)
    ensures EncodeTokens(f, a + b) == EncodeTokens(f, a) + EncodeTokens(f, b)
    decreases |a|
  {
    hide EncodeToken;
    if a == [] {
      assert a + b == b;
    } else {
      assert (a + b)[1..] == a[1..] + b;
      EncodeAppend(f, a[1..], b);
    }
  }

  /** Where the reader looks for `end` at `end_offset`, the writer closed the function: in a written body,
      an `end` stops exactly at the last byte if and only if no label is open. */
  lemma EndAtDepthZero(f: Format, es: ExprList, i: nat)
    requires var ts := ListTokens(es) + [EndToken]; i < |ts| && ts[i] == EndToken
    ensures var ts := ListTokens(es) + [EndToken];
            |EncodeTokens(f, ts[..i + 1])| == |EncodeBody(f, es)| <==> Depth(ts[..i]) == 0
  {
    hide Depth, StaysAbove, EncodeToken, ListTokens;
    var ts := ListTokens(es) + [EndToken];
    EncodeAppend(f, ts[..i + 1], ts[i + 1..]);
    assert ts[..i + 1] + ts[i + 1..] == ts;
    AboveNone();
    AboveList(es, [], 0);
    assert ListTokens(es) + [] == ListTokens(es);
    if i == |ListTokens(es)| {
      assert ts[..i] == ListTokens(es);
    } else {
      AboveAt(ListTokens(es), 0, i + 1);
      assert ts[..i + 1] == ListTokens(es)[..i + 1] == ts[..i] + [EndToken];
      DepthAppend(ts[..i], [EndToken]);
      DepthEnd();
    }
  }

  lemma AboveNone()
    ensures StaysAbove([], 0)
  {
  }

  lemma DepthEnd()
    ensures Depth([EndToken]) == -1
  {
    assert [EndToken][1..] == [];
  }

  // ----- Anything that is accepted ------------------------------------------------------------------------------

  /** The tokens in front of the final `end`. */
  function BodyTokens(f: Format, p: seq<Byte>, at: nat, end: nat, readEnd: nat): (r: Option<seq<Token>>)
    requires readEnd <= |p|
    ensures r.Some? ==> forall i :: 0 <= i < |r.value| ==> Starts(r.value[i])
    decreases if at < end then end - at else 0
  {
    if at >= end then None
    else
      match ReadToken(f, p, at, readEnd)
      case None => None
      case Some(t) =>
        if t.value == EndToken && t.next == end then Some([])
        else
          ReadTokenStarts(f, p, at, readEnd);
          match BodyTokens(f, p, t.next, end, readEnd)
          case None => None
          case Some(ts) => Some([t.value] + ts)
  }

  lemma ReadTokenCanonical(f: Format, p: seq<Byte>, at: nat, end: nat)
    requires end <= |p| && ReadToken(f, p, at, end).Some?
    ensures CanonToken(ReadToken(f, p, at, end).value.value) == ReadToken(f, p, at, end).value.value
  {
    hide ReadU32Leb, ReadConst, ReadDepths, ReadS32Leb, BlockSig, Signed32;
    var op := p[at];
    if 0x41 <= op <= 0x44 {
      ReadConstCanonical(p, at + 1, end, op);
    }
  }

  lemma ReadConstCanonical(p: seq<Byte>, at: nat, end: nat, op: Byte)
    requires end <= |p| && ReadConst(p, at, end, op).Some?
    ensures CanonToken(ReadConst(p, at, end, op).value.value) == ReadConst(p, at, end, op).value.value
  {
    hide ReadS32Leb, ReadS64Leb, ReadU32;
  }

  lemma {:induction false} ReadBodyReplays(f: Format, p: seq<Byte>, at: nat, end: nat, readEnd: nat,
                                           stack: seq<LabelNode>)
    requires readEnd <= |p| && WellNested(stack)
    ensures ReadBody(f, p, at, end, readEnd, stack).Some? ==> BodyTokens(f, p, at, end, readEnd).Some?
    ensures BodyTokens(f, p, at, end, readEnd).Some? ==>
              ReadBody(f, p, at, end, readEnd, stack) == Replay(stack, BodyTokens(f, p, at, end, readEnd).value)
    decreases if at < end then end - at else 0
  {
    hide ReadToken, Build, CanonToken, WellNested;
    if at < end && ReadToken(f, p, at, readEnd).Some? {
      var t := ReadToken(f, p, at, readEnd).value;
      if t.value != EndToken || t.next != end {
        ReadTokenStarts(f, p, at, readEnd);
        ReadTokenCanonical(f, p, at, readEnd);
        BuildNested(stack, t.value);
        var s := Build(stack, t.value);
        var rest := BodyTokens(f, p, t.next, end, readEnd);
        if rest.Some? {
          assert ([t.value] + rest.value)[1..] == rest.value;
        }
        if s.Some? {
          ReadBodyReplays(f, p, t.next, end, readEnd, s.value);
        }
      }
    }
  }

  lemma {:induction false} ReplayDepth(stack: seq<LabelNode>, ts: seq<Token>)
    requires WellNested(stack) && forall i :: 0 <= i < |ts| ==> Starts(ts[i])
    requires Replay(stack, ts).Some?
    ensures |Replay(stack, ts).value| == |stack| + Depth(ts)
    decreases |ts|
  {
    hide ToList, WellNested;
    if ts != [] {
      assert Starts(ts[0]);
      BuildNested(stack, CanonToken(ts[0]));
      ReplayDepth(Build(stack, CanonToken(ts[0])).value, ts[1..]);
    }
  }

  /** Nothing checks that the final `end` closes the function itself: an accepted body leaves just the
      function's label behind if and only if its labels balance. `EndFunctionBody` pops only one. */
  lemma ClosedIffBalanced(f: Format, p: seq<Byte>, at: nat, end: nat, readEnd: nat)
    requires readEnd <= |p| && ReadBody(f, p, at, end, readEnd, EMPTY_BODY).Some?
    ensures BodyTokens(f, p, at, end, readEnd).Some?
    ensures |ReadBody(f, p, at, end, readEnd, EMPTY_BODY).value| == 1
       <==> Depth(BodyTokens(f, p, at, end, readEnd).value) == 0
  {
    hide ReadBody, BodyTokens, Depth, Replay;
    ReadBodyReplays(f, p, at, end, readEnd, EMPTY_BODY);
    ReplayDepth(EMPTY_BODY, BodyTokens(f, p, at, end, readEnd).value);
  }

  /** A block that is never closed, in a body that is accepted. */
  lemma UnclosedBlock(f: Format)
    ensures ReadBody(f, [0x02, 0x40, 0x0b], 0, 3, 3, EMPTY_BODY)
         == Some([LabelNode(FuncLabel, [Block(Sig([], []), Nil)]), LabelNode(BlockLabel, [])])
  {
    hide CodeAt, ReadToken;
    var p: seq<Byte> := [0x02, 0x40, 0x0b];
    var open := Open(BlockLabel, Sig([], []));
    assert SLeb(VOID) == [0x40];
    assert EncodeToken(f, open) == [0x02, 0x40];
    assert p[0..0 + 2] == EncodeToken(f, open) && p[2..2 + 1] == EncodeToken(f, EndToken);
    CodeIs(p, 0, EncodeToken(f, open));
    CodeIs(p, 2, EncodeToken(f, EndToken));
    ReadTokenBack(f, p, 0, 3, open);
    ReadTokenBack(f, p, 2, 3, EndToken);
    var s := [LabelNode(FuncLabel, [Block(Sig([], []), Nil)]), LabelNode(BlockLabel, [])];
    assert [] + [Block(Sig([], []), Nil)] == [Block(Sig([], []), Nil)];
    assert AppendExpr(EMPTY_BODY, Block(Sig([], []), Nil)).value == [s[0]];
    assert Build(EMPTY_BODY, open).value == [s[0]] + [s[1]] == s;
    assert ReadBody(f, p, 2, 3, 3, s) == Some(s);
  }

  lemma CodeIs(p: seq<Byte>, at: nat, c: seq<Byte>)
    requires at + |c| <= |p| && p[at..at + |c|] == c
    ensures CodeAt(p, at, c)
  {
  }

  // ----- Read, then written -------------------------------------------------------------------------------------

  /** Function types of values, few enough to be counted in a signed LEB128. */
  predicate TypesOk(f: Format) {
    && |f.types| < 0x8000_0000
    && forall i :: 0 <= i < |f.types| ==> Concrete(f.types[i].results)
  }

  predicate ExprsOk(f: Format, es: seq<Expr>) {
    forall i :: 0 <= i < |es| ==> ExprOk(f, es[i]) && CanonicalExpr(es[i])
  }

  predicate StackOk(f: Format, stack: seq<LabelNode>) {
    forall i :: 0 <= i < |stack| ==> ExprsOk(f, stack[i].exprs)
  }

  lemma {:induction false} TypeIndexFirst(types: seq<Sig>, i: nat)
    requires i < |types|
    ensures TypeIndex(types, types[i]) <= i
    decreases i
  {
    if i > 0 && types[0] != types[i] {
      TypeIndexFirst(types[1..], i - 1);
    }
  }

  lemma LebBound(p: seq<Byte>, at: nat, end: nat)
    requires end <= |p| && ReadU32Leb(p, at, end).Some?
    ensures ReadU32Leb(p, at, end).value.value < TWO_32
  {
    hide Pow128, Digits, LebLength;
    var k := LebLength(p, at, end, 5);
    DigitsBounds(p, at, k);
    PowFour();
    if k == 5 {
      assert p[at + 4] % 128 == p[at + 4];
    } else {
      PowSmall(k);
    }
  }

  lemma PowSmall(k: nat)
    requires 1 <= k <= 4
    ensures 128 * Pow128(k - 1) <= 0x1000_0000
  {
    PowStep(1);
    PowStep(2);
    PowStep(3);
    PowFour();
  }

  lemma BlockSigReadOk(f: Format, code: int)
    requires TypesOk(f) && BlockSig(f, code).Some?
    ensures BlockSigOk(f, BlockSig(f, code).value)
  {
    hide TypeIndex;
    if code != VOID && TypeOf(code).None? {
      TypeIndexFirst(f.types, code);
    }
  }

  lemma {:induction false} DepthsBound(p: seq<Byte>, at: nat, end: nat, n: nat)
    requires end <= |p| && ReadDepths(p, at, end, n).Some?
    ensures var ds := ReadDepths(p, at, end, n).value.value; forall i :: 0 <= i < |ds| ==> ds[i] < TWO_32
    decreases n
  {
    hide ReadU32Leb;
    if n > 0 {
      LebBound(p, at, end);
      DepthsBound(p, at + ReadU32Leb(p, at, end).value.size, end, n - 1);
    }
  }

  lemma ReadTableOk(f: Format, p: seq<Byte>, at: nat, end: nat)
    requires end <= |p| && ReadTable(p, at, end).Some?
    ensures TokenOk(f, ReadTable(p, at, end).value.value)
  {
    hide ReadU32Leb, ReadDepths;
    LebBound(p, at, end);
    var n := ReadU32Leb(p, at, end).value;
    DepthsBound(p, at + n.size, end, n.value);
    LebBound(p, ReadDepths(p, at + n.size, end, n.value).value.next, end);
  }

  lemma ReadOpenOk(f: Format, p: seq<Byte>, at: nat, end: nat, kind: Kind)
    requires TypesOk(f) && end <= |p| && ReadOpen(f, p, at, end, kind).Some?
    requires kind == BlockLabel || kind == LoopLabel || kind == IfLabel
    ensures TokenOk(f, ReadOpen(f, p, at, end, kind).value.value)
  {
    hide ReadS32Leb, BlockSig, BlockSigOk, Signed32;
    BlockSigReadOk(f, Signed32(ReadS32Leb(p, at, end).value.value));
  }

  lemma IndexedOk(f: Format, op: Byte, i: nat)
    requires IsIndexed(op) && i < TWO_32 && (op == 0x10 ==> i < f.funcs)
    ensures TokenOk(f, Leaf(Indexed(op, i)))
  {
  }

  /** Whatever the reader recognizes, the writer can write. */
  lemma ReadTokenOk(f: Format, p: seq<Byte>, at: nat, end: nat)
    requires TypesOk(f) && end <= |p| && ReadToken(f, p, at, end).Some?
    ensures TokenOk(f, ReadToken(f, p, at, end).value.value)
  {
    hide ReadU32Leb, ReadTable, ReadOpen, TypesOk, Indexed;
    var op := p[at];
    if Bare(op).Some? {
    } else if op == 0x02 {
      ReadOpenOk(f, p, at + 1, end, BlockLabel);
    } else if op == 0x03 {
      ReadOpenOk(f, p, at + 1, end, LoopLabel);
    } else if op == 0x04 {
      ReadOpenOk(f, p, at + 1, end, IfLabel);
    } else if op == 0x0e {
      ReadTableOk(f, p, at + 1, end);
    } else if IsIndexed(op) {
      LebBound(p, at + 1, end);
      IndexedOk(f, op, ReadU32Leb(p, at + 1, end).value.value);
    }
  }

  lemma {:induction false} ToListOk(f: Format, es: seq<Expr>)
    requires ExprsOk(f, es)
    ensures ListOk(f, ToList(es)) && Canonical(ToList(es)) && (ToList(es) == Nil <==> es == [])
    decreases |es|
  {
    hide ExprOk, CanonicalExpr;
    if es != [] {
      ToListOk(f, es[1..]);
    }
  }

  lemma FilledOk(f: Format, e: Expr, kind: Kind, exprs: seq<Expr>)
    requires ExprOk(f, e) && CanonicalExpr(e) && ExprsOk(f, exprs)
    ensures ExprOk(f, Filled(e, kind, exprs)) && CanonicalExpr(Filled(e, kind, exprs))
  {
    hide BlockSigOk, LeafOk, ToList, ExprsOk;
    ToListOk(f, exprs);
  }

  lemma ClosedOk(f: Format, stack: seq<LabelNode>)
    requires WellNested(stack) && |stack| >= 2 && StackOk(f, stack)
    ensures StackOk(f, Closed(stack))
  {
    hide ExprOk, CanonicalExpr, Filled;
    var n := |stack|;
    var top, below := stack[n - 1], stack[n - 2];
    FilledOk(f, Last(below.exprs), top.kind, top.exprs);
  }

  lemma AppendOk(f: Format, stack: seq<LabelNode>, e: Expr)
    requires StackOk(f, stack) && ExprOk(f, e) && CanonicalExpr(e)
    ensures var s := AppendExpr(stack, e); s.Some? ==> StackOk(f, s.value)
  {
    hide ExprOk, CanonicalExpr;
  }

  lemma TokenExprOk(f: Format, t: Token)
    requires TokenOk(f, t) && CanonToken(t) == t
    ensures t.Leaf? ==> ExprOk(f, t.e) && CanonicalExpr(t.e)
    ensures t.Open? ==> ExprOk(f, Opened(t.kind, t.sig)) && CanonicalExpr(Opened(t.kind, t.sig))
  {
    hide BlockSigOk;
  }

  lemma BuildOk(f: Format, stack: seq<LabelNode>, t: Token)
    requires WellNested(stack) && StackOk(f, stack) && TokenOk(f, t) && CanonToken(t) == t
    ensures var s := Build(stack, t); s.Some? ==> StackOk(f, s.value)
  {
    hide ExprOk, CanonicalExpr, Filled, Closed, TokenOk, CanonToken, WellNested;
    TokenExprOk(f, t);
    match t
    case Leaf(e) => AppendOk(f, stack, e);
    case Open(kind, sig) => AppendOk(f, stack, Opened(kind, sig));
    case ElseToken =>
      if |stack| >= 2 {
        ClosedOk(f, stack);
      }
    case EndToken =>
      if |stack| >= 2 {
        ClosedOk(f, stack);
      }
  }

  lemma {:induction false} ReadBodyOk(f: Format, p: seq<Byte>, at: nat, end: nat, readEnd: nat, stack: seq<LabelNode>)
    requires readEnd <= |p| && WellNested(stack) && TypesOk(f) && StackOk(f, stack)
    ensures var s := ReadBody(f, p, at, end, readEnd, stack); s.Some? ==> StackOk(f, s.value)
    decreases if at < end then end - at else 0
  {
    hide ReadToken, Build, CanonToken, WellNested, StackOk, TypesOk, TokenOk;
    if at < end && ReadToken(f, p, at, readEnd).Some? {
      var t := ReadToken(f, p, at, readEnd).value;
      if t.value != EndToken || t.next != end {
        ReadTokenStarts(f, p, at, readEnd);
        ReadTokenCanonical(f, p, at, readEnd);
        ReadTokenOk(f, p, at, readEnd);
        BuildNested(stack, t.value);
        BuildOk(f, stack, t.value);
        var s := Build(stack, t.value);
        if s.Some? {
          ReadBodyOk(f, p, t.next, end, readEnd, s.value);
        }
      }
    }
  }

  /** However a body was encoded: once it is accepted and closed, its tree can be written, and the written
      bytes are accepted again and give the same tree. */
  lemma ReadIsWritable(f: Format, p: seq<Byte>, at: nat, end: nat, readEnd: nat)
    requires readEnd <= |p| && TypesOk(f)
    requires var s := ReadBody(f, p, at, end, readEnd, EMPTY_BODY); s.Some? && |s.value| == 1
    ensures var s := ReadBody(f, p, at, end, readEnd, EMPTY_BODY);
            var es := ToList(s.value[0].exprs);
            var c := EncodeBody(f, es);
            ListOk(f, es) && ReadBody(f, c, 0, |c|, |c|, EMPTY_BODY) == s
  {
    hide ReadBody, EncodeBody, ExprOk, CanonicalExpr, Canonical, CanonList, TypesOk;
    var s := ReadBody(f, p, at, end, readEnd, EMPTY_BODY).value;
    ReadBodyOk(f, p, at, end, readEnd, EMPTY_BODY);
    FuncStays(f, p, at, end, readEnd, EMPTY_BODY);
    var es := ToList(s[0].exprs);
    ToListOk(f, s[0].exprs);
    ItemsToList(s[0].exprs);
    assert s == [LabelNode(FuncLabel, Items(es))];
    RoundTrip(f, es);
  }

  lemma {:induction false} FuncStays(f: Format, p: seq<Byte>, at: nat, end: nat, readEnd: nat, stack: seq<LabelNode>)
    requires readEnd <= |p| && WellNested(stack) && stack != []
    ensures var s := ReadBody(f, p, at, end, readEnd, stack);
            s.Some? ==> s.value != [] && s.value[0].kind == stack[0].kind
    decreases if at < end then end - at else 0
  {
    hide ReadToken, WellNested, ToList, Filled;
    if at < end && ReadToken(f, p, at, readEnd).Some? {
      var t := ReadToken(f, p, at, readEnd).value;
      if t.value != EndToken || t.next != end {
        ReadTokenStarts(f, p, at, readEnd);
        BuildNested(stack, t.value);
        var s := Build(stack, t.value);
        if s.Some? {
          FuncStays(f, p, t.next, end, readEnd, s.value);
        }
      }
    }
  }
}
