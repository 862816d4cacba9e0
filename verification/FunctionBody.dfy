/** A function body on its way out and back: the tree, its flat form, and the tree again. */
module FunctionBody {
  import opened Syntax
  import opened Bytecode
  import opened Leb128
  import opened TypeChecker
  import opened BinaryFormat

  // ----- Writing ----------------------------------------------------------------------------------------------

  /** `WriteExprList`. An `else` is written only if there is something in it. */
  function ListTokens(es: ExprList): seq<Token> {
    match es
    case Nil => []
    case Cons(e, rest) => ExprTokens(e) + ListTokens(rest)
  }

  function ExprTokens(e: Expr): (ts: seq<Token>)
    ensures ts != []
  {
    match e
    case Block(sig, body) => [Open(BlockLabel, sig)] + (ListTokens(body) + [EndToken])
    case Loop(sig, body) => [Open(LoopLabel, sig)] + (ListTokens(body) + [EndToken])
    case If(sig, thn, hasElse, els) =>
      var elseTokens := if hasElse && els != Nil then [ElseToken] + ListTokens(els) else [];
      [Open(IfLabel, sig)] + (ListTokens(thn) + (elseTokens + [EndToken]))
    case _ => [Leaf(e)]
  }

  // ----- Building the tree --------------------------------------------------------------------------------------

  /** A label of `BinaryReaderIR` with the instructions that have arrived in its list so far. */
  datatype LabelNode = LabelNode(kind: Kind, exprs: seq<Expr>)

  function ToList(es: seq<Expr>): ExprList {
    if es == [] then Nil else Cons(es[0], ToList(es[1..]))
  }

  function Items(es: ExprList): seq<Expr> {
    match es
    case Nil => []
    case Cons(e, rest) => [e] + Items(rest)
  }

  function Opened(kind: Kind, sig: Sig): Expr {
    if kind == BlockLabel then Block(sig, Nil) else if kind == LoopLabel then Loop(sig, Nil)
      else If(sig, Nil, false, Nil)
  }

  /** Whether an instruction is of the kind that the label on top of it belongs to. */
  predicate Owns(e: Expr, kind: Kind) {
    match kind
    case FuncLabel => true
    case BlockLabel => e.Block?
    case LoopLabel => e.Loop?
    case _ => e.If?
  }

  /** What `TopLabelExpr` relies on: the last instruction below a label is the one it belongs to. */
  predicate WellNested(stack: seq<LabelNode>) {
    forall i :: 0 <= i < |stack| - 1 ==> stack[i].exprs != [] && Owns(Last(stack[i].exprs), stack[i + 1].kind)
  }

  function Last(es: seq<Expr>): Expr
    requires es != []
  {
    es[|es| - 1]
  }

  function Front(es: seq<Expr>): seq<Expr>
    requires es != []
  {
    es[..|es| - 1]
  }

  /** The instruction once the list on top of it is complete. */
  function Filled(e: Expr, kind: Kind, exprs: seq<Expr>): Expr {
    match e
    case Block(sig, _) => Block(sig, ToList(exprs))
    case Loop(sig, _) => Loop(sig, ToList(exprs))
    case If(sig, thn, _, _) =>
      if kind == ElseLabel then If(sig, thn, exprs != [], ToList(exprs)) else If(sig, ToList(exprs), false, Nil)
    case _ => e
  }

  function AppendExpr(stack: seq<LabelNode>, e: Expr): Option<seq<LabelNode>> {
    if stack == [] then None
    else
      var top := stack[|stack| - 1];
      Some(stack[..|stack| - 1] + [top.(exprs := top.exprs + [e])])
  }

  /** The stack below the top label, with the top label's list in place. */
  function Closed(stack: seq<LabelNode>): seq<LabelNode>
    requires |stack| >= 2 && WellNested(stack)
  {
    var n := |stack|;
    var top, below := stack[n - 1], stack[n - 2];
    if top.kind == FuncLabel then stack[..n - 1]
    else stack[..n - 2] + [below.(exprs := Front(below.exprs) + [Filled(Last(below.exprs), top.kind, top.exprs)])]
  }

  /** The callbacks, one per token: `None` is their `Result::Error`. */
  function Build(stack: seq<LabelNode>, t: Token): Option<seq<LabelNode>>
    requires WellNested(stack)
  {
    match t
    case Leaf(e) => AppendExpr(stack, e)
    case Open(kind, sig) =>
      if stack == [] then None else Some(AppendExpr(stack, Opened(kind, sig)).value + [LabelNode(kind, [])])
    case ElseToken =>
      if |stack| < 2 || stack[|stack| - 1].kind != IfLabel then None
      else Some(Closed(stack) + [LabelNode(ElseLabel, [])])
    case EndToken => if |stack| < 2 then None else Some(Closed(stack))
  }

  predicate Starts(t: Token) {
    t.Open? ==> t.kind == BlockLabel || t.kind == LoopLabel || t.kind == IfLabel
  }

  lemma BuildNested(stack: seq<LabelNode>, t: Token)
    requires WellNested(stack) && Starts(t)
    ensures Build(stack, t).Some? ==> WellNested(Build(stack, t).value)
  {
    hide ToList;
  }

  // ----- Reading ------------------------------------------------------------------------------------------------

  lemma ReadTokenStarts(f: Format, p: seq<Byte>, at: nat, end: nat)
    requires end <= |p| && ReadToken(f, p, at, end).Some?
    ensures Starts(ReadToken(f, p, at, end).value.value)
  {
    hide BlockSig, Signed32, ReadS32Leb, Indexed;
  }

  /** `ReadFunctionBody`: the `end` on the last byte closes the function, every other one a label.
      The result is the label stack at `OnEndFunc`. */
  function ReadBody(f: Format, p: seq<Byte>, at: nat, end: nat, readEnd: nat,
                    stack: seq<LabelNode>): (r: Option<seq<LabelNode>>)
    requires readEnd <= |p| && WellNested(stack)
    ensures r.Some? ==> WellNested(r.value) && at < end <= readEnd
    decreases if at < end then end - at else 0
  {
    if at >= end then None
    else
      match ReadToken(f, p, at, readEnd)
      case None => None
      case Some(t) =>
        if t.value == EndToken && t.next == end then Some(stack)
        else
          ReadTokenStarts(f, p, at, readEnd);
          BuildNested(stack, t.value);
          match Build(stack, t.value)
          case None => None
          case Some(s) => ReadBody(f, p, t.next, end, readEnd, s)
  }

  /** The callbacks of a written token sequence. */
  function Replay(stack: seq<LabelNode>, ts: seq<Token>): (r: Option<seq<LabelNode>>)
    requires WellNested(stack) && forall i :: 0 <= i < |ts| ==> Starts(ts[i])
    ensures r.Some? ==> WellNested(r.value)
    decreases |ts|
  {
    if ts == [] then Some(stack)
    else
      assert Starts(ts[0]);
      BuildNested(stack, CanonToken(ts[0]));
      match Build(stack, CanonToken(ts[0]))
      case None => None
      case Some(s) => Replay(s, ts[1..])
  }

  // ----- One token and back -----------------------------------------------------------------------------------

  lemma ReadLeafBack(f: Format, p: seq<Byte>, at: nat, end: nat, e: Expr)
    requires LeafOk(f, e) && end <= |p| && CodeAt(p, at, EncodeLeaf(e)) && at + |EncodeLeaf(e)| <= end
    ensures ReadToken(f, p, at, end) == Some(ReadResult(Leaf(CanonLeaf(e)), at + |EncodeLeaf(e)|))
  {
    hide CodeAt, ULeb, EncodeConst, ReadToken, BlockSig;
    match e
    case Simple(op) => ReadOpBack(f, p, at, end, op);
    case Br(d) => ReadIndexedBack(f, p, at, end, 0x0c, d);
    case BrIf(d) => ReadIndexedBack(f, p, at, end, 0x0d, d);
    case BrTable(targets, default) => ReadBrTableBack(f, p, at, end, targets, default);
    case Return => ReadBareTokenBack(f, p, at, end, 0x0f, Leaf(Return));
    case Call(g) => ReadIndexedBack(f, p, at, end, 0x10, g);
    case Unreachable => ReadBareTokenBack(f, p, at, end, 0x00, Leaf(Unreachable));
  }

  lemma ReadBareTokenBack(f: Format, p: seq<Byte>, at: nat, end: nat, op: Byte, t: Token)
    requires Bare(op) == Some(t) && end <= |p| && CodeAt(p, at, [op]) && at + 1 <= end
    ensures ReadToken(f, p, at, end) == Some(ReadResult(t, at + 1))
  {
    ReadBareBack(f, p, at, end, op);
  }

  lemma ReadBrTableBack(f: Format, p: seq<Byte>, at: nat, end: nat, targets: seq<nat>, default: nat)
    requires LeafOk(f, BrTable(targets, default))
    requires var c := EncodeLeaf(BrTable(targets, default)); end <= |p| && CodeAt(p, at, c) && at + |c| <= end
    ensures var c := EncodeLeaf(BrTable(targets, default));
            ReadToken(f, p, at, end) == Some(ReadResult(Leaf(BrTable(targets, default)), at + |c|))
  {
    hide CodeAt, ULeb, ReadTable, EncodeDepths;
    CodeAtCons(p, at, 0x0e, ULeb(|targets|) + (EncodeDepths(targets) + ULeb(default)));
    ReadTableBack(p, at + 1, end, targets, default);
  }

  lemma ReadOpBack(f: Format, p: seq<Byte>, at: nat, end: nat, op: Op)
    requires OpOk(op) && end <= |p| && CodeAt(p, at, EncodeOp(op)) && at + |EncodeOp(op)| <= end
    ensures ReadToken(f, p, at, end) == Some(ReadResult(Leaf(CanonLeaf(Simple(op))), at + |EncodeOp(op)|))
  {
    hide CodeAt, ULeb, EncodeConst, ReadToken, ConstWord;
    match op
    case Const(ty, v) => ReadConstBack(f, p, at, end, ty, v);
    case Binary(bin) => ReadBareTokenBack(f, p, at, end, BinOpcode(bin), Leaf(Simple(Binary(bin))));
    case Drop => ReadBareTokenBack(f, p, at, end, 0x1a, Leaf(Simple(Drop)));
    case Select => ReadBareTokenBack(f, p, at, end, 0x1b, Leaf(Simple(Select)));
    case Nop => ReadBareTokenBack(f, p, at, end, 0x01, Leaf(Simple(Nop)));
    case LocalGet(x) => ReadIndexedBack(f, p, at, end, 0x20, x);
    case LocalSet(x) => ReadIndexedBack(f, p, at, end, 0x21, x);
    case LocalTee(x) => ReadIndexedBack(f, p, at, end, 0x22, x);
    case GlobalGet(g) => ReadIndexedBack(f, p, at, end, 0x23, g);
    case GlobalSet(g) => ReadIndexedBack(f, p, at, end, 0x24, g);
  }

  /** The reader gets back every token that the format can express. */
  lemma ReadTokenBack(f: Format, p: seq<Byte>, at: nat, end: nat, t: Token)
    requires TokenOk(f, t) && end <= |p| && CodeAt(p, at, EncodeToken(f, t)) && at + |EncodeToken(f, t)| <= end
    ensures ReadToken(f, p, at, end) == Some(ReadResult(CanonToken(t), at + |EncodeToken(f, t)|))
  {
    hide CodeAt, EncodeLeaf, LeafOk, ReadOpen, BlockCode, SLeb, BlockSigOk;
    match t
    case Leaf(e) => ReadLeafBack(f, p, at, end, e);
    case Open(kind, sig) =>
      CodeAtCons(p, at, OpenOpcode(kind), SLeb(BlockCode(f.types, sig)));
      ReadOpenBack(f, p, at + 1, end, kind, sig);
    case ElseToken => ReadBareTokenBack(f, p, at, end, 0x05, ElseToken);
    case EndToken => ReadBareTokenBack(f, p, at, end, 0x0b, EndToken);
  }

  // ----- Whole bodies -----------------------------------------------------------------------------------------

  predicate TokensOk(f: Format, ts: seq<Token>) {
    forall i :: 0 <= i < |ts| ==> TokenOk(f, ts[i])
  }

  /** Reading what was written for any tokens, balanced or not, makes their callbacks. */
  lemma {:induction false} ReadTokensBack(f: Format, p: seq<Byte>, at: nat, readEnd: nat, ts: seq<Token>,
                                          stack: seq<LabelNode>)
    requires readEnd <= |p| && WellNested(stack) && TokensOk(f, ts)
    requires var c := EncodeTokens(f, ts + [EndToken]); CodeAt(p, at, c) && at + |c| <= readEnd
    ensures ReadBody(f, p, at, at + |EncodeTokens(f, ts + [EndToken])|, readEnd, stack) == Replay(stack, ts)
    decreases |ts|
  {
    hide CodeAt, EncodeToken, ReadToken, Build, CanonToken, TokenOk, WellNested;
    var all := ts + [EndToken];
    var end := at + |EncodeTokens(f, all)|;
    CodeAtSplit(p, at, EncodeToken(f, all[0]), EncodeTokens(f, all[1..]));
    if ts == [] {
      assert EncodeTokens(f, all) == EncodeToken(f, EndToken);
      ReadEndBack(f, p, at, readEnd);
    } else {
      assert all[0] == ts[0] && all[1..] == ts[1..] + [EndToken];
      ReadTokenBack(f, p, at, readEnd, ts[0]);
      var s := Build(stack, CanonToken(ts[0]));
      BuildNested(stack, CanonToken(ts[0])) by { assert Starts(CanonToken(ts[0])) by { StartsOk(f, ts[0]); } }
      if s.Some? {
        ReadTokensBack(f, p, at + |EncodeToken(f, ts[0])|, readEnd, ts[1..], s.value);
      }
    }
  }

  lemma StartsOk(f: Format, t: Token)
    requires TokenOk(f, t)
    ensures Starts(t) && Starts(CanonToken(t))
  {
    hide LeafOk;
  }

  lemma ReadEndBack(f: Format, p: seq<Byte>, at: nat, end: nat)
    requires end <= |p| && CodeAt(p, at, EncodeToken(f, EndToken)) && at + |EncodeToken(f, EndToken)| <= end
    ensures ReadToken(f, p, at, end) == Some(ReadResult(EndToken, at + |EncodeToken(f, EndToken)|))
  {
    hide CodeAt, EncodeToken, ReadToken;
    ReadTokenBack(f, p, at, end, EndToken);
  }

  // ----- Trees --------------------------------------------------------------------------------------------------

  /** What the reader makes of a tree: constants with their upper bits gone, empty `else` branches
      absent. */
  function CanonList(es: ExprList): ExprList {
    match es
    case Nil => Nil
    case Cons(e, rest) => Cons(CanonExpr(e), CanonList(rest))
  }

  function CanonExpr(e: Expr): Expr {
    match e
    case Block(sig, body) => Block(sig, CanonList(body))
    case Loop(sig, body) => Loop(sig, CanonList(body))
    case If(sig, thn, hasElse, els) =>
      If(sig, CanonList(thn), hasElse && els != Nil, if hasElse then CanonList(els) else Nil)
    case _ => CanonLeaf(e)
  }

  /** Trees that the format can express. */
  predicate ListOk(f: Format, es: ExprList) {
    match es
    case Nil => true
    case Cons(e, rest) => ExprOk(f, e) && ListOk(f, rest)
  }

  predicate ExprOk(f: Format, e: Expr) {
    match e
    case Block(sig, body) => BlockSigOk(f, sig) && ListOk(f, body)
    case Loop(sig, body) => BlockSigOk(f, sig) && ListOk(f, body)
    case If(sig, thn, hasElse, els) => BlockSigOk(f, sig) && ListOk(f, thn) && (hasElse ==> ListOk(f, els))
    case _ => LeafOk(f, e)
  }

  lemma {:induction false} ListTokensOk(f: Format, es: ExprList)
    requires ListOk(f, es)
    ensures TokensOk(f, ListTokens(es))
  {
    hide BlockSigOk, LeafOk;
    match es
    case Nil =>
    case Cons(e, rest) => ExprTokensOk(f, e); ListTokensOk(f, rest);
  }

  lemma {:induction false} ExprTokensOk(f: Format, e: Expr)
    requires ExprOk(f, e)
    ensures TokensOk(f, ExprTokens(e))
  {
    hide BlockSigOk, LeafOk;
    match e
    case Block(_, body) => ListTokensOk(f, body);
    case Loop(_, body) => ListTokensOk(f, body);
    case If(_, thn, hasElse, els) =>
      ListTokensOk(f, thn);
      if hasElse {
        ListTokensOk(f, els);
      }
    case _ =>
  }

  lemma {:induction false} ReplayAppend(f: Format, stack: seq<LabelNode>, a: seq<Token>, b: seq<Token>)
    requires WellNested(stack) && TokensOk(f, a) && TokensOk(f, b)
    ensures TokensOk(f, a + b)
    ensures var mid := Replay(stack, a); Replay(stack, a + b) == if mid.Some? then Replay(mid.value, b) else None
    decreases |a|
  {
    hide Build, CanonToken, TokenOk, WellNested;
    if a == [] {
      assert a + b == b;
    } else {
      assert (a + b)[1..] == a[1..] + b;
      StartsOk(f, a[0]);
      BuildNested(stack, CanonToken(a[0]));
      var s := Build(stack, CanonToken(a[0]));
      if s.Some? {
        ReplayAppend(f, s.value, a[1..], b);
      }
    }
  }

  /** The stack with more instructions in its top list. */
  function Grow(stack: seq<LabelNode>, es: seq<Expr>): (r: seq<LabelNode>)
    requires stack != []
    ensures |r| == |stack| && (WellNested(stack) ==> WellNested(r))
  {
    var top := stack[|stack| - 1];
    stack[..|stack| - 1] + [top.(exprs := top.exprs + es)]
  }

  lemma GrowTwice(stack: seq<LabelNode>, a: seq<Expr>, b: seq<Expr>)
    requires stack != []
    ensures Grow(Grow(stack, a), b) == Grow(stack, a + b)
    ensures Grow(stack, []) == stack
  {
    var top := stack[|stack| - 1];
    assert (top.exprs + a) + b == top.exprs + (a + b);
    assert top.exprs + [] == top.exprs;
  }

  lemma {:induction false} ToListItems(es: ExprList)
    ensures ToList(Items(es)) == es
  {
    match es
    case Nil =>
    case Cons(e, rest) => ToListItems(rest); assert Items(es)[1..] == Items(rest);
  }

  lemma {:induction false} ItemsToList(es: seq<Expr>)
    ensures Items(ToList(es)) == es
  {
    if es != [] {
      ItemsToList(es[1..]);
    }
  }

  /** Playing the callbacks of a tree's tokens adds exactly that tree to the current list. */
  lemma {:induction false} ReplayList(f: Format, stack: seq<LabelNode>, es: ExprList)
    requires stack != [] && WellNested(stack) && ListOk(f, es)
    ensures TokensOk(f, ListTokens(es))
    ensures Replay(stack, ListTokens(es)) == Some(Grow(stack, Items(CanonList(es))))
    decreases es, 0
  {
    hide Build, CanonToken, TokenOk, LeafOk, BlockSigOk, Grow;
    ListTokensOk(f, es);
    match es
    case Nil => GrowTwice(stack, [], []);
    case Cons(e, rest) =>
      ReplayExpr(f, stack, e);
      ListTokensOk(f, rest);
      ReplayAppend(f, stack, ExprTokens(e), ListTokens(rest));
      ReplayList(f, Grow(stack, [CanonExpr(e)]), rest);
      GrowTwice(stack, [CanonExpr(e)], Items(CanonList(rest)));
  }

  lemma {:induction false} ReplayExpr(f: Format, stack: seq<LabelNode>, e: Expr)
    requires stack != [] && WellNested(stack) && ExprOk(f, e)
    ensures TokensOk(f, ExprTokens(e))
    ensures Replay(stack, ExprTokens(e)) == Some(Grow(stack, [CanonExpr(e)]))
    decreases e, 1
  {
    hide CanonLeaf, LeafOk, BlockSigOk, Grow, ToList, Items;
    ExprTokensOk(f, e);
    match e
    case Block(sig, body) =>
      ToListItems(CanonList(body));
      ReplayNest(f, stack, BlockLabel, sig, body, Block(sig, CanonList(body)));
    case Loop(sig, body) =>
      ToListItems(CanonList(body));
      ReplayNest(f, stack, LoopLabel, sig, body, Loop(sig, CanonList(body)));
    case If(sig, thn, hasElse, els) =>
      if hasElse && els != Nil {
        ReplayIfElse(f, stack, sig, thn, els);
      } else {
        assert ExprTokens(e) == [Open(IfLabel, sig)] + (ListTokens(thn) + [EndToken]);
        ToListItems(CanonList(thn));
        ReplayNest(f, stack, IfLabel, sig, thn, If(sig, CanonList(thn), false, Nil));
      }
    case _ =>
      ReplayLeaf(f, stack, e);
  }

  lemma ReplayLeaf(f: Format, stack: seq<LabelNode>, e: Expr)
    requires stack != [] && WellNested(stack) && LeafOk(f, e)
    ensures Replay(stack, [Leaf(e)]) == Some(Grow(stack, [CanonLeaf(e)]))
  {
    hide CanonLeaf, LeafOk;
    ReplayOne(f, stack, Leaf(e));
  }

  lemma ReplayOne(f: Format, stack: seq<LabelNode>, t: Token)
    requires WellNested(stack) && TokenOk(f, t)
    ensures TokensOk(f, [t]) && Replay(stack, [t]) == Build(stack, CanonToken(t))
    ensures Replay(stack, [t]).Some? ==> WellNested(Replay(stack, [t]).value)
  {
    hide Build, CanonToken, TokenOk, WellNested;
    StartsOk(f, t);
    BuildNested(stack, CanonToken(t));
    assert [t][1..] == [];
  }

  /** A label with a complete list under it, and its `end`. */
  lemma CloseGrown(stack: seq<LabelNode>, node: LabelNode, e: Expr, body: ExprList)
    requires stack != [] && WellNested(stack) && node.exprs == [] && node.kind != FuncLabel && Owns(e, node.kind)
    ensures var s := Grow(Grow(stack, [e]) + [node], Items(body));
            && WellNested(s) && |s| == |stack| + 1 && s[|s| - 1].kind == node.kind
            && Closed(s) == Grow(stack, [Filled(e, node.kind, Items(body))])
            && Build(s, EndToken) == Some(Closed(s))
            && (node.kind == IfLabel ==> Build(s, ElseToken) == Some(Closed(s) + [LabelNode(ElseLabel, [])]))
  {
    hide Filled, Items;
    var under := Grow(stack, [e]);
    var s := Grow(under + [node], Items(body));
    var below := under[|under| - 1];
    assert [] + Items(body) == Items(body);
    assert s == under + [LabelNode(node.kind, Items(body))];
    assert Last(below.exprs) == e && Front(below.exprs) == stack[|stack| - 1].exprs;
    assert Closed(s) == under[..|under| - 1]
           + [below.(exprs := Front(below.exprs) + [Filled(e, node.kind, Items(body))])];
  }

  lemma {:induction false} ReplayNest(f: Format, stack: seq<LabelNode>, kind: Kind, sig: Sig, body: ExprList, e: Expr)
    requires stack != [] && WellNested(stack) && TokenOk(f, Open(kind, sig)) && ListOk(f, body)
    requires e == Filled(Opened(kind, sig), kind, Items(CanonList(body)))
    ensures var ts := [Open(kind, sig)] + (ListTokens(body) + [EndToken]);
            TokensOk(f, ts) && Replay(stack, ts) == Some(Grow(stack, [e]))
    decreases body, 1
  {
    hide BlockSigOk, Items, Filled, Grow, WellNested;
    ListTokensOk(f, body);
    ReplayOpen(f, stack, kind, sig);
    var open := Grow(stack, [Opened(kind, sig)]) + [LabelNode(kind, [])];
    ReplayAppend(f, stack, [Open(kind, sig)], ListTokens(body) + [EndToken]);
    ReplayList(f, open, body);
    ReplayAppend(f, open, ListTokens(body), [EndToken]);
    CloseGrown(stack, LabelNode(kind, []), Opened(kind, sig), CanonList(body));
    ReplayOne(f, Grow(open, Items(CanonList(body))), EndToken);
  }

  lemma ReplayOpen(f: Format, stack: seq<LabelNode>, kind: Kind, sig: Sig)
    requires stack != [] && WellNested(stack) && TokenOk(f, Open(kind, sig))
    ensures TokensOk(f, [Open(kind, sig)]) && Owns(Opened(kind, sig), kind)
    ensures var open := Grow(stack, [Opened(kind, sig)]) + [LabelNode(kind, [])];
            WellNested(open) && Replay(stack, [Open(kind, sig)]) == Some(open)
  {
    hide BlockSigOk;
    ReplayOne(f, stack, Open(kind, sig));
  }

  lemma {:induction false} ReplayIfElse(f: Format, stack: seq<LabelNode>, sig: Sig, thn: ExprList, els: ExprList)
    requires stack != [] && WellNested(stack) && BlockSigOk(f, sig) && ListOk(f, thn) && ListOk(f, els) && els != Nil
    ensures var ts := [Open(IfLabel, sig)] + (ListTokens(thn) + (([ElseToken] + ListTokens(els)) + [EndToken]));
            TokensOk(f, ts) && Replay(stack, ts) == Some(Grow(stack, [If(sig, CanonList(thn), true, CanonList(els))]))
    decreases If(sig, thn, true, els), 0
  {
    hide BlockSigOk, Items, Grow, WellNested, ToList, Build, Closed, TokenOk, Replay;
    ListTokensOk(f, thn);
    ListTokensOk(f, els);
    assert TokenOk(f, Open(IfLabel, sig)) by { OpenOk(f, sig); }
    ReplayOpen(f, stack, IfLabel, sig);
    var open := Grow(stack, [Opened(IfLabel, sig)]) + [LabelNode(IfLabel, [])];
    var elsTokens := ([ElseToken] + ListTokens(els)) + [EndToken];
    ReplayElse(f, stack, sig, thn, els);
    ReplayList(f, open, thn);
    ReplayAppend(f, open, ListTokens(thn), elsTokens);
    ReplayAppend(f, stack, [Open(IfLabel, sig)], ListTokens(thn) + elsTokens);
  }

  lemma OpenOk(f: Format, sig: Sig)
    requires BlockSigOk(f, sig)
    ensures TokenOk(f, Open(IfLabel, sig))
  {
    hide BlockSigOk;
  }

  lemma SingleOk(f: Format)
    ensures TokenOk(f, ElseToken) && TokenOk(f, EndToken)
  {
  }

  lemma ItemsEmpty(es: ExprList)
    ensures Items(es) == [] <==> es == Nil
  {
  }

  /** From the `else` of an `if` whose first branch has just been built. */
  lemma {:induction false} ReplayElse(f: Format, stack: seq<LabelNode>, sig: Sig, thn: ExprList, els: ExprList)
    requires stack != [] && WellNested(stack) && ListOk(f, els) && els != Nil
    ensures var s := Grow(Grow(stack, [Opened(IfLabel, sig)]) + [LabelNode(IfLabel, [])], Items(CanonList(thn)));
            var ts := ([ElseToken] + ListTokens(els)) + [EndToken];
            WellNested(s) && TokensOk(f, ts)
            && Replay(s, ts) == Some(Grow(stack, [If(sig, CanonList(thn), true, CanonList(els))]))
    decreases els, 1
  {
    hide Items, Grow, WellNested, Build, Closed, TokenOk, Replay;
    ListTokensOk(f, els);
    SingleOk(f);
    var thenItems, elseItems := Items(CanonList(thn)), Items(CanonList(els));
    var e1 := If(sig, CanonList(thn), false, Nil);
    var e2 := If(sig, CanonList(thn), true, CanonList(els));
    var s := Grow(Grow(stack, [Opened(IfLabel, sig)]) + [LabelNode(IfLabel, [])], thenItems);
    ToListItems(CanonList(thn));
    ToListItems(CanonList(els));
    ItemsEmpty(CanonList(els));
    CloseGrown(stack, LabelNode(IfLabel, []), Opened(IfLabel, sig), CanonList(thn));
    ReplayOne(f, s, ElseToken);
    var s1 := Grow(stack, [e1]) + [LabelNode(ElseLabel, [])];
    ReplayList(f, s1, els);
    CloseGrown(stack, LabelNode(ElseLabel, []), e1, CanonList(els));
    ReplayOne(f, Grow(s1, elseItems), EndToken);
    ReplayAppend(f, s, [ElseToken], ListTokens(els));
    ReplayAppend(f, s, [ElseToken] + ListTokens(els), [EndToken]);
  }
}
