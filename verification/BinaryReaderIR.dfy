/** The tree builder as it is: instructions own lists, a label points at the list that is being filled,
    and the lists change under instructions that were appended long before. A list is its index in
    `lists`; `FunctionBody.Build` is what the pointers amount to. */
module IRBuilder {
  import opened Syntax
  import opened TypeChecker
  import opened BinaryFormat
  import opened FunctionBody

  datatype Item =
    | LeafItem(e: Expr)
    | BlockItem(sig: Sig, body: nat)
    | LoopItem(sig: Sig, body: nat)
    | IfItem(sig: Sig, thn: nat, els: nat)

  datatype LabelRef = LabelRef(kind: Kind, list: nat)

  // ----- What lists stand for -----------------------------------------------------------------------------------

  /** Only through lists in `done`, to which nothing is added any more. */
  predicate ItemIs(lists: seq<seq<Item>>, done: set<nat>, item: Item, e: Expr)
    decreases e
  {
    match e
    case Block(sig, body) =>
      item.BlockItem? && item.sig == sig && item.body in done && item.body < |lists|
      && ListIs(lists, done, lists[item.body], body)
    case Loop(sig, body) =>
      item.LoopItem? && item.sig == sig && item.body in done && item.body < |lists|
      && ListIs(lists, done, lists[item.body], body)
    case If(sig, thn, hasElse, els) =>
      && item.IfItem? && item.sig == sig && (hasElse <==> els != Nil)
      && item.thn in done && item.thn < |lists| && ListIs(lists, done, lists[item.thn], thn)
      && item.els in done && item.els < |lists| && ListIs(lists, done, lists[item.els], els)
    case _ => item == LeafItem(e)
  }

  predicate ListIs(lists: seq<seq<Item>>, done: set<nat>, items: seq<Item>, es: ExprList)
    decreases es
  {
    match es
    case Nil => items == []
    case Cons(e, rest) => items != [] && ItemIs(lists, done, items[0], e) && ListIs(lists, done, items[1..], rest)
  }

  /** Lists that are done stay as they are. */
  predicate Kept(lists: seq<seq<Item>>, done: set<nat>, lists': seq<seq<Item>>, done': set<nat>) {
    done <= done' && forall l :: l in done && l < |lists| ==> l < |lists'| && lists'[l] == lists[l]
  }

  lemma {:induction false} KeptItem(lists: seq<seq<Item>>, done: set<nat>, lists': seq<seq<Item>>, done': set<nat>,
                                    item: Item, e: Expr)
    requires Kept(lists, done, lists', done') && ItemIs(lists, done, item, e)
    ensures ItemIs(lists', done', item, e)
    decreases e
  {
    match e
    case Block(_, body) => KeptList(lists, done, lists', done', lists[item.body], body);
    case Loop(_, body) => KeptList(lists, done, lists', done', lists[item.body], body);
    case If(_, thn, _, els) =>
      KeptList(lists, done, lists', done', lists[item.thn], thn);
      KeptList(lists, done, lists', done', lists[item.els], els);
    case _ =>
  }

  lemma {:induction false} KeptList(lists: seq<seq<Item>>, done: set<nat>, lists': seq<seq<Item>>, done': set<nat>,
                                    items: seq<Item>, es: ExprList)
    requires Kept(lists, done, lists', done') && ListIs(lists, done, items, es)
    ensures ListIs(lists', done', items, es)
    decreases es
  {
    match es
    case Nil =>
    case Cons(e, rest) =>
      KeptItem(lists, done, lists', done', items[0], e);
      KeptList(lists, done, lists', done', items[1..], rest);
  }

  /** The pointers leave no doubt about the tree. */
  lemma {:induction false} ListIsUnique(lists: seq<seq<Item>>, done: set<nat>, items: seq<Item>, es: ExprList,
                                        es': ExprList)
    requires ListIs(lists, done, items, es) && ListIs(lists, done, items, es')
    ensures es == es'
    decreases es
  {
    if es.Cons? {
      ItemIsUnique(lists, done, items[0], es.head, es'.head);
      ListIsUnique(lists, done, items[1..], es.tail, es'.tail);
    }
  }

  lemma {:induction false} ItemIsUnique(lists: seq<seq<Item>>, done: set<nat>, item: Item, e: Expr, e': Expr)
    requires ItemIs(lists, done, item, e) && ItemIs(lists, done, item, e')
    ensures e == e'
    decreases e
  {
    match e
    case Block(_, body) => ListIsUnique(lists, done, lists[item.body], body, e'.body);
    case Loop(_, body) => ListIsUnique(lists, done, lists[item.body], body, e'.body);
    case If(_, thn, _, els) =>
      ListIsUnique(lists, done, lists[item.thn], thn, e'.thn);
      ListIsUnique(lists, done, lists[item.els], els, e'.els);
    case _ =>
  }

  function Indices(n: nat): (r: set<nat>)
    ensures forall l: nat :: l in r <==> l < n
  {
    if n == 0 then {} else Indices(n - 1) + {n - 1}
  }

  /** What a list holds, read off the lists alone. */
  predicate ListHolds(lists: seq<seq<Item>>, l: nat, es: ExprList) {
    l < |lists| && ListIs(lists, Indices(|lists|), lists[l], es)
  }

  /** The lists of a finished function hold its tree, and no other. */
  lemma HoldsOnly(lists: seq<seq<Item>>, done: set<nat>, l: nat, es: ExprList)
    requires l < |lists| && ListIs(lists, done, lists[l], es) && forall k :: k in done ==> k < |lists|
    ensures forall es' :: ListHolds(lists, l, es') <==> es' == es
  {
    hide ListIs;
    KeptList(lists, done, lists, Indices(|lists|), lists[l], es);
    forall es' | ListHolds(lists, l, es')
      ensures es' == es
    {
      ListIsUnique(lists, Indices(|lists|), lists[l], es, es');
    }
  }

  // ----- What the label stack stands for ------------------------------------------------------------------------

  /** The last list that a label has a hand in: the `else` list of an `if` waits next to its first list. */
  function Reach(ref: LabelRef): nat {
    if ref.kind == IfLabel then ref.list + 1 else ref.list
  }

  predicate Complete(lists: seq<seq<Item>>, done: set<nat>, items: seq<Item>, exprs: seq<Expr>, n: nat) {
    n <= |items| == |exprs| && forall k :: 0 <= k < n ==> ItemIs(lists, done, items[k], exprs[k])
  }

  /** The instruction that a label belongs to points at the label's list. */
  predicate PointsAt(lists: seq<seq<Item>>, done: set<nat>, item: Item, e: Expr, ref: LabelRef) {
    match ref.kind
    case FuncLabel => ItemIs(lists, done, item, e)
    case BlockLabel => e.Block? && item == BlockItem(e.sig, ref.list)
    case LoopLabel => e.Loop? && item == LoopItem(e.sig, ref.list)
    case IfLabel => e.If? && item == IfItem(e.sig, ref.list, ref.list + 1)
    case ElseLabel =>
      e.If? && item.IfItem? && item.sig == e.sig && item.els == ref.list
      && item.thn in done && item.thn < |lists| && ListIs(lists, done, lists[item.thn], e.thn)
  }

  predicate Fresh(lists: seq<seq<Item>>, done: set<nat>, ref: LabelRef) {
    && Reach(ref) < |lists| && ref.list !in done && Reach(ref) !in done
    && (ref.kind == IfLabel ==> lists[Reach(ref)] == [])
  }

  predicate Level(lists: seq<seq<Item>>, done: set<nat>, ref: LabelRef, node: LabelNode) {
    && Fresh(lists, done, ref) && ref.kind == node.kind
    && |lists[ref.list]| == |node.exprs|
  }

  /** A label below another one: all but the last instruction are complete. */
  predicate Under(lists: seq<seq<Item>>, done: set<nat>, ref: LabelRef, node: LabelNode, next: LabelRef) {
    && Level(lists, done, ref, node) && node.exprs != [] && Reach(ref) < next.list
    && Complete(lists, done, lists[ref.list], node.exprs, |node.exprs| - 1)
    && PointsAt(lists, done, lists[ref.list][|node.exprs| - 1], Last(node.exprs), next)
  }

  predicate TopIs(lists: seq<seq<Item>>, done: set<nat>, ref: LabelRef, node: LabelNode) {
    Level(lists, done, ref, node) && Complete(lists, done, lists[ref.list], node.exprs, |node.exprs|)
  }

  predicate StackIs(lists: seq<seq<Item>>, done: set<nat>, labels: seq<LabelRef>, stack: seq<LabelNode>)
    decreases |labels|
  {
    var n := |labels|;
    && n == |stack|
    && (n > 0 ==> TopIs(lists, done, labels[n - 1], stack[n - 1]))
    && (n > 1 ==> Below(lists, done, labels[..n - 1], stack[..n - 1], labels[n - 1]))
  }

  /** The stack under the label `next`. */
  predicate Below(lists: seq<seq<Item>>, done: set<nat>, labels: seq<LabelRef>, stack: seq<LabelNode>, next: LabelRef)
    decreases |labels|
  {
    var n := |labels|;
    && n == |stack|
    && (n > 0 ==>
          && Under(lists, done, labels[n - 1], stack[n - 1], next)
          && Below(lists, done, labels[..n - 1], stack[..n - 1], labels[n - 1]))
  }

  // ----- Steps ----------------------------------------------------------------------------------------------------

  /** Lists below `bound` that are not done stay as well. */
  predicate KeptBelow(lists: seq<seq<Item>>, done: set<nat>, lists': seq<seq<Item>>, done': set<nat>, bound: nat) {
    && Kept(lists, done, lists', done') && |lists| <= |lists'|
    && forall l :: 0 <= l < bound && l < |lists| && l !in done ==> lists'[l] == lists[l] && l !in done'
  }

  lemma KeptComplete(lists: seq<seq<Item>>, done: set<nat>, lists': seq<seq<Item>>, done': set<nat>, items: seq<Item>,
                     exprs: seq<Expr>, n: nat)
    requires Kept(lists, done, lists', done') && Complete(lists, done, items, exprs, n)
    ensures Complete(lists', done', items, exprs, n)
  {
    hide ItemIs, Kept;
    forall k | 0 <= k < n
      ensures ItemIs(lists', done', items[k], exprs[k])
    {
      KeptItem(lists, done, lists', done', items[k], exprs[k]);
    }
  }

  lemma KeptPoints(lists: seq<seq<Item>>, done: set<nat>, lists': seq<seq<Item>>, done': set<nat>, item: Item, e: Expr,
                   ref: LabelRef)
    requires Kept(lists, done, lists', done') && PointsAt(lists, done, item, e, ref)
    ensures PointsAt(lists', done', item, e, ref)
  {
    hide ItemIs, ListIs;
    if ref.kind == FuncLabel {
      KeptItem(lists, done, lists', done', item, e);
    } else if ref.kind == ElseLabel {
      KeptList(lists, done, lists', done', lists[item.thn], e.thn);
    }
  }

  lemma KeptUnder(lists: seq<seq<Item>>, done: set<nat>, lists': seq<seq<Item>>, done': set<nat>, ref: LabelRef,
                  node: LabelNode, next: LabelRef)
    requires KeptBelow(lists, done, lists', done', next.list) && Under(lists, done, ref, node, next)
    ensures Under(lists', done', ref, node, next)
  {
    hide Complete, PointsAt, Kept;
    KeptComplete(lists, done, lists', done', lists[ref.list], node.exprs, |node.exprs| - 1);
    KeptPoints(lists, done, lists', done', lists[ref.list][|node.exprs| - 1], Last(node.exprs), next);
  }

  lemma {:induction false} KeptStack(lists: seq<seq<Item>>, done: set<nat>, lists': seq<seq<Item>>, done': set<nat>,
                                     labels: seq<LabelRef>, stack: seq<LabelNode>, next: LabelRef)
    requires KeptBelow(lists, done, lists', done', next.list) && Below(lists, done, labels, stack, next)
    ensures Below(lists', done', labels, stack, next)
    decreases |labels|
  {
    hide Under;
    var n := |labels|;
    if n > 0 {
      KeptUnder(lists, done, lists', done', labels[n - 1], stack[n - 1], next);
      SmallerBound(lists, done, lists', done', labels[n - 1], stack[n - 1], next);
      KeptStack(lists, done, lists', done', labels[..n - 1], stack[..n - 1], labels[n - 1]);
    }
  }

  lemma SmallerBound(lists: seq<seq<Item>>, done: set<nat>, lists': seq<seq<Item>>, done': set<nat>, ref: LabelRef,
                     node: LabelNode, next: LabelRef)
    requires KeptBelow(lists, done, lists', done', next.list) && Under(lists, done, ref, node, next)
    ensures KeptBelow(lists, done, lists', done', ref.list)
  {
    hide Complete, PointsAt, Kept;
  }

  /** Adding a complete instruction to the top list. */
  lemma AppendStep(lists: seq<seq<Item>>, done: set<nat>, labels: seq<LabelRef>, stack: seq<LabelNode>, item: Item,
                   e: Expr)
    requires StackIs(lists, done, labels, stack) && stack != [] && ItemIs(lists, done, item, e)
    ensures var top := labels[|labels| - 1].list;
            && top < |lists| && top !in done
            && StackIs(lists[top := lists[top] + [item]], done, labels, AppendExpr(stack, e).value)
  {
    hide ItemIs, Below;
    var n := |labels|;
    var top, node := labels[n - 1].list, stack[n - 1];
    var lists' := lists[top := lists[top] + [item]];
    var stack' := AppendExpr(stack, e).value;
    assert stack'[..n - 1] == stack[..n - 1];
    KeptComplete(lists, done, lists', done, lists[top], node.exprs, |node.exprs|);
    KeptItem(lists, done, lists', done, item, e);
    if n > 1 {
      KeptStack(lists, done, lists', done, labels[..n - 1], stack[..n - 1], labels[n - 1]);
    }
  }

  predicate DoneInside(lists: seq<seq<Item>>, done: set<nat>) {
    forall l :: l in done ==> l < |lists|
  }

  function NewLists(kind: Kind): seq<seq<Item>> {
    if kind == IfLabel then [[], []] else [[]]
  }

  function NewItem(kind: Kind, sig: Sig, l: nat): Item {
    if kind == BlockLabel then BlockItem(sig, l) else if kind == LoopLabel then LoopItem(sig, l)
      else IfItem(sig, l, l + 1)
  }

  /** A new instruction on the top list, and a label on the instruction's own list. */
  lemma OpenStep(lists: seq<seq<Item>>, done: set<nat>, labels: seq<LabelRef>, stack: seq<LabelNode>, kind: Kind,
                 sig: Sig)
    requires StackIs(lists, done, labels, stack) && stack != [] && DoneInside(lists, done) && WellNested(stack)
    requires kind == BlockLabel || kind == LoopLabel || kind == IfLabel
    ensures var top := labels[|labels| - 1].list;
            && top < |lists| && top !in done && Build(stack, Open(kind, sig)).Some?
            && StackIs(lists[top := lists[top] + [NewItem(kind, sig, |lists|)]] + NewLists(kind), done,
                       labels + [LabelRef(kind, |lists|)], Build(stack, Open(kind, sig)).value)
  {
    hide ItemIs, Below, Complete;
    var n := |labels|;
    var top, node := labels[n - 1].list, stack[n - 1];
    var item, e := NewItem(kind, sig, |lists|), Opened(kind, sig);
    var lists' := lists[top := lists[top] + [item]] + NewLists(kind);
    var grown := AppendExpr(stack, e).value;
    var next := LabelRef(kind, |lists|);
    KeptComplete(lists, done, lists', done, lists[top], node.exprs, |node.exprs|);
    CompletePrefix(lists', done, lists[top], node.exprs, item, e);
    assert Under(lists', done, labels[n - 1], grown[n - 1], next);
    assert grown[..n - 1] == stack[..n - 1];
    if n > 1 {
      KeptStack(lists, done, lists', done, labels[..n - 1], stack[..n - 1], labels[n - 1]);
    }
    BelowCons(lists', done, labels, grown, next);
    var labels', stack' := labels + [next], grown + [LabelNode(kind, [])];
    assert labels'[..n] == labels && stack'[..n] == grown;
    NothingIs(lists', done);
  }

  lemma NothingIs(lists: seq<seq<Item>>, done: set<nat>)
    ensures Complete(lists, done, [], [], 0)
  {
  }

  lemma CompletePrefix(lists: seq<seq<Item>>, done: set<nat>, items: seq<Item>, exprs: seq<Expr>, item: Item, e: Expr)
    requires Complete(lists, done, items, exprs, |exprs|)
    ensures Complete(lists, done, items + [item], exprs + [e], |exprs|)
    ensures ItemIs(lists, done, item, e) ==> Complete(lists, done, items + [item], exprs + [e], |exprs| + 1)
  {
    hide ItemIs;
  }

  lemma BelowCons(lists: seq<seq<Item>>, done: set<nat>, labels: seq<LabelRef>, stack: seq<LabelNode>, next: LabelRef)
    requires |labels| == |stack| > 0 && Under(lists, done, labels[|labels| - 1], stack[|stack| - 1], next)
    requires var n := |labels|; n > 1 ==> Below(lists, done, labels[..n - 1], stack[..n - 1], labels[n - 1])
    ensures Below(lists, done, labels, stack, next)
  {
    hide Under;
  }

  lemma {:induction false} CompleteList(lists: seq<seq<Item>>, done: set<nat>, items: seq<Item>, exprs: seq<Expr>)
    requires Complete(lists, done, items, exprs, |exprs|)
    ensures ListIs(lists, done, items, ToList(exprs))
    decreases |exprs|
  {
    hide ItemIs;
    if exprs != [] {
      CompleteList(lists, done, items[1..], exprs[1..]);
    }
  }

  /** The lists that a label gives up when it is popped. */
  function Released(ref: LabelRef): set<nat> {
    {ref.list, Reach(ref)}
  }

  /** The instruction of a popped label is complete. */
  lemma FilledItem(lists: seq<seq<Item>>, done: set<nat>, ref: LabelRef, node: LabelNode, item: Item, e: Expr)
    requires TopIs(lists, done, ref, node) && PointsAt(lists, done, item, e, ref)
    ensures var done' := done + Released(ref);
            && ListIs(lists, done', lists[ref.list], ToList(node.exprs))
            && (ref.kind != FuncLabel ==> ItemIs(lists, done', item, Filled(e, ref.kind, node.exprs)))
  {
    hide ToList, Complete;
    var done' := done + Released(ref);
    CompleteList(lists, done, lists[ref.list], node.exprs);
    KeptList(lists, done, lists, done', lists[ref.list], ToList(node.exprs));
    ToListNil(node.exprs);
    if ref.kind == ElseLabel {
      KeptList(lists, done, lists, done', lists[item.thn], e.thn);
    }
  }

  lemma ToListNil(es: seq<Expr>)
    ensures ToList(es) == Nil <==> es == []
  {
  }

  lemma ClosedKept(lists: seq<seq<Item>>, done: set<nat>, ref: LabelRef, bound: nat)
    requires bound <= ref.list
    ensures KeptBelow(lists, done, lists, done + Released(ref), bound)
    ensures bound <= ref.list ==> KeptBelow(lists, done, lists, done + {ref.list}, bound)
  {
  }

  /** Popping a label: `OnEndExpr`, or `EndFunctionBody` with labels left. */
  lemma CloseStep(lists: seq<seq<Item>>, done: set<nat>, labels: seq<LabelRef>, stack: seq<LabelNode>)
    requires StackIs(lists, done, labels, stack) && |stack| >= 2 && WellNested(stack)
    ensures var n := |labels|;
            StackIs(lists, done + Released(labels[n - 1]), labels[..n - 1], Closed(stack))
  {
    hide ItemIs, ListIs, Below, Complete, Filled;
    var n := |labels|;
    var ref, node, under, below := labels[n - 1], stack[n - 1], labels[n - 2], stack[n - 2];
    var done' := done + Released(ref);
    BelowSplit(lists, done, labels[..n - 1], stack[..n - 1], ref);
    assert Under(lists, done, under, below, ref);
    var item, e := lists[under.list][|below.exprs| - 1], Last(below.exprs);
    FilledItem(lists, done, ref, node, item, e);
    ClosedKept(lists, done, ref, ref.list);
    KeptUnder(lists, done, lists, done', under, below, ref);
    var closed := Closed(stack);
    var e' := if ref.kind == FuncLabel then e else Filled(e, ref.kind, node.exprs);
    if ref.kind == FuncLabel {
      KeptPoints(lists, done, lists, done', item, e, ref);
    }
    assert closed[n - 2] == below.(exprs := Front(below.exprs) + [e']);
    CompleteLast(lists, done', lists[under.list], below.exprs, e');
    assert TopIs(lists, done', under, closed[n - 2]);
    assert closed[..n - 2] == stack[..n - 2] == stack[..n - 1][..n - 2];
    assert labels[..n - 1][..n - 2] == labels[..n - 2];
    if n > 2 {
      ClosedKept(lists, done, ref, under.list);
      KeptStack(lists, done, lists, done', labels[..n - 2], stack[..n - 2], under);
    }
  }

  lemma BelowSplit(lists: seq<seq<Item>>, done: set<nat>, labels: seq<LabelRef>, stack: seq<LabelNode>, next: LabelRef)
    requires Below(lists, done, labels, stack, next) && labels != []
    ensures var n := |labels|;
            && n == |stack| && Under(lists, done, labels[n - 1], stack[n - 1], next)
            && Below(lists, done, labels[..n - 1], stack[..n - 1], labels[n - 1])
  {
    hide Under;
  }

  lemma CompleteLast(lists: seq<seq<Item>>, done: set<nat>, items: seq<Item>, exprs: seq<Expr>, e: Expr)
    requires exprs != [] && Complete(lists, done, items, exprs, |exprs| - 1)
    ensures Complete(lists, done, items, Front(exprs) + [e], |exprs| - 1)
    ensures ItemIs(lists, done, items[|exprs| - 1], e) ==> Complete(lists, done, items, Front(exprs) + [e], |exprs|)
  {
    hide ItemIs;
  }

  /** Retargeting a label to the second list of its `if`. */
  lemma ElseStep(lists: seq<seq<Item>>, done: set<nat>, labels: seq<LabelRef>, stack: seq<LabelNode>)
    requires StackIs(lists, done, labels, stack) && |stack| >= 2 && WellNested(stack)
             && stack[|stack| - 1].kind == IfLabel
    ensures var n := |labels|;
            StackIs(lists, done + {labels[n - 1].list}, labels[..n - 1] + [LabelRef(ElseLabel, labels[n - 1].list + 1)],
                    Closed(stack) + [LabelNode(ElseLabel, [])])
  {
    hide ItemIs, ListIs, Below, Complete, ToList;
    var n := |labels|;
    var ref, node, under, below := labels[n - 1], stack[n - 1], labels[n - 2], stack[n - 2];
    var done' := done + {ref.list};
    BelowSplit(lists, done, labels[..n - 1], stack[..n - 1], ref);
    assert Under(lists, done, under, below, ref);
    CompleteList(lists, done, lists[ref.list], node.exprs);
    KeptList(lists, done, lists, done', lists[ref.list], ToList(node.exprs));
    ClosedKept(lists, done, ref, ref.list);
    KeptUnder(lists, done, lists, done', under, below, ref);
    var e' := Filled(Last(below.exprs), IfLabel, node.exprs);
    var closed := Closed(stack);
    assert closed[n - 2] == below.(exprs := Front(below.exprs) + [e']);
    CompleteLast(lists, done', lists[under.list], below.exprs, e');
    var next := LabelRef(ElseLabel, ref.list + 1);
    assert Under(lists, done', under, closed[n - 2], next);
    assert closed[..n - 2] == stack[..n - 2] == stack[..n - 1][..n - 2];
    assert labels[..n - 1][..n - 2] == labels[..n - 2];
    if n > 2 {
      ClosedKept(lists, done, ref, under.list);
      KeptStack(lists, done, lists, done', labels[..n - 2], stack[..n - 2], under);
    }
    BelowCons(lists, done', labels[..n - 1], closed, next);
    var labels', stack' := labels[..n - 1] + [next], closed + [LabelNode(ElseLabel, [])];
    assert labels'[..n - 1] == labels[..n - 1] && stack'[..n - 1] == closed;
    NothingIs(lists, done');
  }

  /** A function's list and label on top of whatever earlier functions left. */
  lemma BeginStep(lists: seq<seq<Item>>, done: set<nat>, labels: seq<LabelRef>, stack: seq<LabelNode>)
    requires StackIs(lists, done, labels, stack) && DoneInside(lists, done)
    requires stack != [] ==> stack[|stack| - 1].exprs != []
    ensures StackIs(lists + [[]], done, labels + [LabelRef(FuncLabel, |lists|)], stack + [LabelNode(FuncLabel, [])])
  {
    hide ItemIs, Below, Complete;
    var n := |labels|;
    var lists', next := lists + [[]], LabelRef(FuncLabel, |lists|);
    var labels', stack' := labels + [next], stack + [LabelNode(FuncLabel, [])];
    assert labels'[..n] == labels && stack'[..n] == stack;
    NothingIs(lists', done);
    if n > 0 {
      var ref, node := labels[n - 1], stack[n - 1];
      KeptComplete(lists, done, lists', done, lists[ref.list], node.exprs, |node.exprs|);
      AllButLast(lists', done, lists'[ref.list], node.exprs);
      if n > 1 {
        KeptStack(lists, done, lists', done, labels[..n - 1], stack[..n - 1], ref);
      }
      BelowCons(lists', done, labels, stack, next);
    }
  }

  lemma AllButLast(lists: seq<seq<Item>>, done: set<nat>, items: seq<Item>, exprs: seq<Expr>)
    requires exprs != [] && Complete(lists, done, items, exprs, |exprs|)
    ensures Complete(lists, done, items, exprs, |exprs| - 1) && ItemIs(lists, done, items[|exprs| - 1], Last(exprs))
  {
    hide ItemIs;
  }

  // ----- The builder ----------------------------------------------------------------------------------------------

  /** Nothing forgotten and nothing changed. */
  predicate Grown(before: map<nat, ExprList>, after: map<nat, ExprList>) {
    forall l :: l in before ==> l in after && after[l] == before[l]
  }

  predicate SameBottom(before: seq<LabelRef>, after: seq<LabelRef>) {
    before != [] && after != [] && after[0] == before[0]
  }

  datatype FuncSlot = FuncSlot(decls: seq<LocalDecl>, exprs: nat)

  class BinaryReaderIR {
    var lists: seq<seq<Item>>
    var labelStack: seq<LabelRef>
    /** The functions begun so far; the last one is `current_func_`. */
    var funcs: seq<FuncSlot>

    /** What the label stack amounts to, the lists to which nothing can be added, and the trees of the
        functions among them. */
    ghost var tree: seq<LabelNode>
    ghost var done: set<nat>
    ghost var finished: map<nat, ExprList>

    ghost predicate Valid()
      reads this
    {
      && WellNested(tree) && DoneInside(lists, done) && StackIs(lists, done, labelStack, tree)
      && (forall l :: l in finished ==> l in done && l < |lists| && ListIs(lists, done, lists[l], finished[l]))
    }

    constructor ()
      ensures Valid() && tree == [] && funcs == []
    {
      lists, labelStack, funcs := [], [], [];
      tree, done, finished := [], {}, map[];
    }

    /** Finished trees survive every later change to the lists. */
    twostate lemma StillFinished(more: map<nat, ExprList>)
      requires old(Valid()) && Kept(old(lists), old(done), lists, done)
      requires finished == old(finished) + more
      requires forall l :: l in more ==> l in done && l < |lists| && ListIs(lists, done, lists[l], more[l])
      ensures forall l :: l in finished ==> l in done && l < |lists| && ListIs(lists, done, lists[l], finished[l])
    {
      hide ListIs, StackIs, WellNested;
      forall l | l in finished
        ensures l in done && l < |lists| && ListIs(lists, done, lists[l], finished[l])
      {
        if l !in more {
          KeptList(old(lists), old(done), lists, done, old(lists)[l], finished[l]);
        }
      }
    }

    method PushLabel(kind: Kind, list: nat)
      modifies this`labelStack
      ensures labelStack == old(labelStack) + [LabelRef(kind, list)]
    {
      labelStack := labelStack + [LabelRef(kind, list)];
    }

    method PopLabel() returns (ok: bool)
      modifies this`labelStack
      ensures ok <==> old(labelStack) != []
      ensures labelStack == if ok then old(labelStack)[..|old(labelStack)| - 1] else []
    {
      ok := labelStack != [];
      if ok {
        labelStack := labelStack[..|labelStack| - 1];
      }
    }

    method AppendItem(item: Item) returns (ok: bool)
      requires labelStack != [] ==> labelStack[|labelStack| - 1].list < |lists|
      modifies this`lists
      ensures ok <==> labelStack != []
      ensures !ok ==> lists == old(lists)
      ensures ok ==> var top := labelStack[|labelStack| - 1].list; lists == old(lists)[top := old(lists)[top] + [item]]
    {
      ok := labelStack != [];
      if ok {
        var top := labelStack[|labelStack| - 1].list;
        lists := lists[top := lists[top] + [item]];
      }
    }

    method BeginFunctionBody()
      requires Valid() && (tree != [] ==> tree[|tree| - 1].exprs != [])
      modifies this
      ensures Valid() && tree == old(tree) + [LabelNode(FuncLabel, [])]
      ensures funcs == old(funcs) + [FuncSlot([], labelStack[|labelStack| - 1].list)]
      ensures finished == old(finished) && labelStack == old(labelStack) + [LabelRef(FuncLabel, |old(lists)|)]
    {
      hide StackIs, ListIs;
      BeginStep(lists, done, labelStack, tree);
      var list := |lists|;
      lists := lists + [[]];
      funcs := funcs + [FuncSlot([], list)];
      PushLabel(FuncLabel, list);
      tree := tree + [LabelNode(FuncLabel, [])];
      StillFinished(map[]);
    }

    /** `LocalTypes::AppendDecl` on the current function. */
    method OnLocalDecl(count: nat, ty: Type)
      requires Valid() && funcs != []
      modifies this`funcs
      ensures Valid()
      ensures var cur := old(funcs)[|old(funcs)| - 1];
              funcs == old(funcs)[..|old(funcs)| - 1] + [cur.(decls := cur.decls + [LocalDecl(count, ty)])]
    {
      var cur := funcs[|funcs| - 1];
      funcs := funcs[..|funcs| - 1] + [cur.(decls := cur.decls + [LocalDecl(count, ty)])];
    }

    method OnLeafExpr(e: Expr) returns (ok: bool)
      requires Valid() && !e.Block? && !e.Loop? && !e.If?
      modifies this`lists, this`tree
      ensures Valid() && (ok <==> Build(old(tree), Leaf(e)).Some?)
      ensures tree == if ok then Build(old(tree), Leaf(e)).value else old(tree)
      ensures ok ==> SameBottom(old(labelStack), labelStack)
    {
      hide StackIs, ListIs, ToList;
      StackSize(lists, done, labelStack, tree);
      if tree != [] {
        AppendStep(lists, done, labelStack, tree, LeafItem(e), e);
        BuildNested(tree, Leaf(e));
      }
      ok := AppendItem(LeafItem(e));
      if ok {
        tree := AppendExpr(tree, e).value;
        StillFinished(map[]);
      }
    }

    /** `OnBlockExpr`, `OnLoopExpr` and `OnIfExpr`: the instruction comes with its own lists. */
    method OnOpenExpr(kind: Kind, sig: Sig) returns (ok: bool)
      requires Valid() && (kind == BlockLabel || kind == LoopLabel || kind == IfLabel)
      modifies this`lists, this`labelStack, this`tree
      ensures Valid() && (ok <==> Build(old(tree), Open(kind, sig)).Some?)
      ensures tree == if ok then Build(old(tree), Open(kind, sig)).value else old(tree)
      ensures ok ==> SameBottom(old(labelStack), labelStack)
    {
      hide StackIs, ListIs;
      StackSize(lists, done, labelStack, tree);
      var list := |lists|;
      if tree != [] {
        OpenStep(lists, done, labelStack, tree, kind, sig);
        BuildNested(tree, Open(kind, sig));
      }
      ok := AppendItem(NewItem(kind, sig, list));
      if ok {
        lists := lists + NewLists(kind);
        PushLabel(kind, list);
        tree := Build(tree, Open(kind, sig)).value;
        StillFinished(map[]);
      }
    }

    /** `TopLabelExpr` and the retargeting of the label. */
    method OnElseExpr() returns (ok: bool)
      requires Valid()
      modifies this`labelStack, this`tree, this`done
      ensures Valid() && (ok <==> Build(old(tree), ElseToken).Some?)
      ensures tree == if ok then Build(old(tree), ElseToken).value else old(tree)
      ensures ok ==> SameBottom(old(labelStack), labelStack)
    {
      hide StackIs, ListIs, ToList;
      StackSize(lists, done, labelStack, tree);
      var n := |labelStack|;
      if n < 2 || labelStack[n - 1].kind != IfLabel {
        return false;
      }
      var ref := labelStack[n - 1];
      var parent := labelStack[n - 2].list;
      TopItem(lists, done, labelStack, tree);
      var item := lists[parent][|lists[parent]| - 1];
      ElseStep(lists, done, labelStack, tree);
      BuildNested(tree, ElseToken);
      done := done + {ref.list};
      tree := Build(tree, ElseToken).value;
      labelStack := labelStack[..n - 1] + [LabelRef(ElseLabel, item.els)];
      StillFinished(map[]);
      ok := true;
    }

    method OnEndExpr() returns (ok: bool)
      requires Valid()
      modifies this`labelStack, this`tree, this`done, this`finished
      ensures Valid() && (ok <==> Build(old(tree), EndToken).Some?)
      ensures tree == if ok then Build(old(tree), EndToken).value else old(tree)
      ensures ok ==> SameBottom(old(labelStack), labelStack)
      ensures finished == if ok then old(Popped()) else old(finished)
      ensures Grown(old(finished), finished)
    {
      hide StackIs, ListIs, ToList;
      StackSize(lists, done, labelStack, tree);
      var n := |labelStack|;
      if n < 2 {
        return false;
      }
      CloseStep(lists, done, labelStack, tree);
      BuildNested(tree, EndToken);
      TopDone(lists, done, labelStack, tree);
      ghost var after := Popped();
      done, finished := done + Released(labelStack[n - 1]), after;
      tree := Closed(tree);
      ok := PopLabel();
      AfterPop();
    }

    /** The trees of the functions once the top label is gone. */
    ghost function Popped(): map<nat, ExprList>
      requires tree != [] && |labelStack| == |tree|
      reads this
    {
      var n := |labelStack|;
      if labelStack[n - 1].kind == FuncLabel then finished[labelStack[n - 1].list := ToList(tree[n - 1].exprs)]
        else finished
    }

    twostate lemma AfterPop()
      requires old(Valid()) && old(tree) != [] && |old(labelStack)| == |old(tree)| && lists == old(lists)
      requires var ref := old(labelStack)[|old(labelStack)| - 1];
               && ref.list < |lists| && done == old(done) + Released(ref)
               && ListIs(lists, done, lists[ref.list], ToList(old(tree)[|old(tree)| - 1].exprs))
      requires finished == old(Popped())
      ensures forall l :: l in finished ==> l in done && l < |lists| && ListIs(lists, done, lists[l], finished[l])
    {
      hide ListIs, StackIs, WellNested, ToList;
      var n := |old(labelStack)|;
      var ref := old(labelStack)[n - 1];
      if ref.kind == FuncLabel {
        StillFinished(map[ref.list := ToList(old(tree)[n - 1].exprs)]);
      } else {
        StillFinished(map[]);
      }
    }

    /** Only one label is popped, whatever it is. */
    method EndFunctionBody() returns (ok: bool)
      requires Valid()
      modifies this`labelStack, this`tree, this`done, this`finished
      ensures Valid() && (ok <==> old(tree) != [])
      ensures tree == if |old(tree)| < 2 then [] else Closed(old(tree))
      ensures tree != [] ==> tree[|tree| - 1].exprs != []
      ensures finished == if ok then old(Popped()) else old(finished)
      ensures Grown(old(finished), finished)
    {
      hide StackIs, ListIs, ToList, Filled;
      StackSize(lists, done, labelStack, tree);
      var n := |labelStack|;
      if n > 0 {
        TopDone(lists, done, labelStack, tree);
        ghost var after := Popped();
        ghost var done' := done + Released(labelStack[n - 1]);
        if n > 1 {
          CloseStep(lists, done, labelStack, tree);
          BuildNested(tree, EndToken);
          tree := Closed(tree);
        } else {
          EmptyStack(lists, done');
          assert labelStack[..0] == [];
          tree := [];
        }
        done, finished := done', after;
      }
      ok := PopLabel();
      if ok {
        AfterPop();
      }
    }
  }

  lemma EmptyStack(lists: seq<seq<Item>>, done: set<nat>)
    ensures StackIs(lists, done, [], [])
  {
  }

  lemma StackSize(lists: seq<seq<Item>>, done: set<nat>, labels: seq<LabelRef>, stack: seq<LabelNode>)
    requires StackIs(lists, done, labels, stack)
    ensures |labels| == |stack|
    ensures var n := |labels|; n > 0 ==> labels[n - 1].list < |lists| && labels[n - 1].kind == stack[n - 1].kind
  {
  }

  lemma TopItem(lists: seq<seq<Item>>, done: set<nat>, labels: seq<LabelRef>, stack: seq<LabelNode>)
    requires StackIs(lists, done, labels, stack) && |labels| >= 2 && labels[|labels| - 1].kind == IfLabel
    ensures var n := |labels|;
            && labels[n - 2].list < |lists| && lists[labels[n - 2].list] != []
            && var items := lists[labels[n - 2].list];
               items[|items| - 1].IfItem? && items[|items| - 1].els == labels[n - 1].list + 1
  {
    hide ListIs, ItemIs;
    var n := |labels|;
    BelowSplit(lists, done, labels[..n - 1], stack[..n - 1], labels[n - 1]);
  }

  lemma TopDone(lists: seq<seq<Item>>, done: set<nat>, labels: seq<LabelRef>, stack: seq<LabelNode>)
    requires StackIs(lists, done, labels, stack) && stack != [] && DoneInside(lists, done)
    ensures var n := |labels|;
            var done' := done + Released(labels[n - 1]);
            && DoneInside(lists, done') && labels[n - 1].list < |lists| && labels[n - 1].list !in done
            && ListIs(lists, done', lists[labels[n - 1].list], ToList(stack[n - 1].exprs))
  {
    hide ListIs, ItemIs, Below, ToList;
    var n := |labels|;
    var ref, node := labels[n - 1], stack[n - 1];
    CompleteList(lists, done, lists[ref.list], node.exprs);
    KeptList(lists, done, lists, done + Released(ref), lists[ref.list], ToList(node.exprs));
  }
}
