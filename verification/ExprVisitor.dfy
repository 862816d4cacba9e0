/** The tree walk that every pass uses: a loop over three parallel stacks that must make the same
    callbacks, in the same order, as the obvious recursion. */
module ExprVisitorClass {
  import opened Syntax

  /** The delegate's callbacks. */
  datatype Event = OnExpr(e: Expr) | BeginExpr(e: Expr) | AfterIfTrue(e: Expr) | EndExpr(e: Expr)

  // ----- The recursion ----------------------------------------------------------------------------------------------

  function FalseBranch(e: Expr): ExprList
    requires e.If?
  {
    if e.hasElse then e.els else Nil
  }

  function ListEvents(es: ExprList): seq<Event> {
    match es
    case Nil => []
    case Cons(e, rest) => Events(e) + ListEvents(rest)
  }

  function Events(e: Expr): (r: seq<Event>)
    ensures r != []
  {
    match e
    case Block(_, body) => [BeginExpr(e)] + (ListEvents(body) + [EndExpr(e)])
    case Loop(_, body) => [BeginExpr(e)] + (ListEvents(body) + [EndExpr(e)])
    case If(_, thn, hasElse, els) =>
      var second := if hasElse then ListEvents(els) else [];
      [BeginExpr(e)] + (ListEvents(thn) + ([AfterIfTrue(e)] + (second + [EndExpr(e)])))
    case _ => [OnExpr(e)]
  }

  /** Callbacks can fail, and the first failure ends the walk. */
  function Until(fails: Event -> bool, es: seq<Event>): seq<Event> {
    if es == [] then []
    else if fails(es[0]) then [es[0]]
    else [es[0]] + Until(fails, es[1..])
  }

  predicate NoneFails(fails: Event -> bool, es: seq<Event>) {
    forall i :: 0 <= i < |es| ==> !fails(es[i])
  }

  lemma {:induction false} UntilAppend(fails: Event -> bool, done: seq<Event>, rest: seq<Event>)
    requires NoneFails(fails, done)
    ensures Until(fails, done + rest) == done + Until(fails, rest)
    decreases |done|
  {
    if done == [] {
      assert done + rest == rest;
    } else {
      assert (done + rest)[1..] == done[1..] + rest;
      UntilAppend(fails, done[1..], rest);
    }
  }

  // ----- The stacks ------------------------------------------------------------------------------------------

  datatype VisitState = Default | InBlock | InIfTrue | InIfFalse | InLoop

  /** An iterator is what is left of its list; only states other than `Default` have one. */
  predicate StacksOk(states: seq<VisitState>, exprs: seq<Expr>, iters: seq<ExprList>)
    decreases |states|
  {
    var n := |states|;
    && n == |exprs|
    && if n == 0 then iters == []
       else if states[n - 1] == Default then StacksOk(states[..n - 1], exprs[..n - 1], iters)
       else
         && iters != [] && StateMatches(states[n - 1], exprs[n - 1])
         && StacksOk(states[..n - 1], exprs[..n - 1], iters[..|iters| - 1])
  }

  predicate StateMatches(state: VisitState, e: Expr) {
    match state
    case Default => true
    case InBlock => e.Block?
    case InLoop => e.Loop?
    case _ => e.If?
  }

  /** What a state still has to do with its own list: the rest of it, and what comes behind. */
  function Remaining(state: VisitState, e: Expr, iter: ExprList): seq<Event>
    requires StateMatches(state, e)
  {
    if state == InIfTrue then ListEvents(iter) + ([AfterIfTrue(e)] + (ListEvents(FalseBranch(e)) + [EndExpr(e)]))
    else ListEvents(iter) + [EndExpr(e)]
  }

  /** The callbacks that are still to come. */
  function ToCome(states: seq<VisitState>, exprs: seq<Expr>, iters: seq<ExprList>): seq<Event>
    requires StacksOk(states, exprs, iters)
    decreases |states|
  {
    var n, k := |states|, |iters|;
    if n == 0 then []
    else if states[n - 1] == Default then Events(exprs[n - 1]) + ToCome(states[..n - 1], exprs[..n - 1], iters)
    else Remaining(states[n - 1], exprs[n - 1], iters[k - 1]) + ToCome(states[..n - 1], exprs[..n - 1], iters[..k - 1])
  }

  lemma PendingDefault(states: seq<VisitState>, exprs: seq<Expr>, iters: seq<ExprList>, e: Expr)
    requires StacksOk(states, exprs, iters)
    ensures StacksOk(states + [Default], exprs + [e], iters)
    ensures ToCome(states + [Default], exprs + [e], iters) == Events(e) + ToCome(states, exprs, iters)
  {
    var s, x := states + [Default], exprs + [e];
    assert s[..|s| - 1] == states && x[..|x| - 1] == exprs;
  }

  lemma PendingList(states: seq<VisitState>, exprs: seq<Expr>, iters: seq<ExprList>, state: VisitState, e: Expr,
                    iter: ExprList)
    requires StacksOk(states, exprs, iters) && state != Default && StateMatches(state, e)
    ensures StacksOk(states + [state], exprs + [e], iters + [iter])
    ensures ToCome(states + [state], exprs + [e], iters + [iter]) == Remaining(state, e, iter)
            + ToCome(states, exprs, iters)
  {
    var s, x, i := states + [state], exprs + [e], iters + [iter];
    assert s[..|s| - 1] == states && x[..|x| - 1] == exprs && i[..|i| - 1] == iters;
  }

  lemma RemainingCons(state: VisitState, e: Expr, h: Expr, t: ExprList, below: seq<Event>)
    requires StateMatches(state, e)
    ensures Remaining(state, e, Cons(h, t)) + below == Events(h) + (Remaining(state, e, t) + below)
  {
    hide Events;
    if state == InIfTrue {
      var tail := [AfterIfTrue(e)] + (ListEvents(FalseBranch(e)) + [EndExpr(e)]);
      assert (Events(h) + ListEvents(t)) + tail + below == Events(h) + ((ListEvents(t) + tail) + below);
    } else {
      assert (Events(h) + ListEvents(t)) + [EndExpr(e)] + below == Events(h) + ((ListEvents(t) + [EndExpr(e)]) + below);
    }
  }

  lemma RemainingNil(state: VisitState, e: Expr, below: seq<Event>)
    requires StateMatches(state, e)
    ensures state == InIfTrue ==>
              Remaining(state, e, Nil) + below == [AfterIfTrue(e)] + (Remaining(InIfFalse, e, FalseBranch(e)) + below)
    ensures state != InIfTrue ==> Remaining(state, e, Nil) + below == [EndExpr(e)] + below
  {
    hide Events;
    if state == InIfTrue {
      var tail := ListEvents(FalseBranch(e)) + [EndExpr(e)];
      assert ([] + ([AfterIfTrue(e)] + tail)) + below == [AfterIfTrue(e)] + (tail + below);
    } else {
      assert [] + [EndExpr(e)] == [EndExpr(e)];
    }
  }

  /** An instruction's first callback and the state it leads to. */
  lemma EventsBegin(e: Expr, below: seq<Event>)
    ensures e.Block? ==> Events(e) + below == [BeginExpr(e)] + (Remaining(InBlock, e, e.body) + below)
    ensures e.Loop? ==> Events(e) + below == [BeginExpr(e)] + (Remaining(InLoop, e, e.body) + below)
    ensures e.If? ==> Events(e) + below == [BeginExpr(e)] + (Remaining(InIfTrue, e, e.thn) + below)
  {
  }

  // ----- The walk --------------------------------------------------------------------------------------------

  /** Records the callbacks it gets. */
  class Delegate {
    const fails: Event -> bool
    var log: seq<Event>

    constructor (f: Event -> bool)
      ensures fails == f && log == []
    {
      fails, log := f, [];
    }

    method Call(ev: Event) returns (ok: bool)
      modifies this
      ensures ok == !fails(ev) && log == old(log) + [ev]
    {
      log := log + [ev];
      ok := !fails(ev);
    }
  }

  class ExprVisitor {
    const delegate: Delegate
    var stateStack: seq<VisitState>
    var exprStack: seq<Expr>
    var exprIterStack: seq<ExprList>

    constructor (d: Delegate)
      ensures delegate == d
    {
      delegate := d;
      stateStack, exprStack, exprIterStack := [], [], [];
    }

    ghost predicate Valid()
      reads this
    {
      StacksOk(stateStack, exprStack, exprIterStack)
    }

    ghost function Todo(): seq<Event>
      requires Valid()
      reads this
    {
      ToCome(stateStack, exprStack, exprIterStack)
    }

    method PushDefault(e: Expr)
      requires Valid()
      modifies this
      ensures Valid() && Todo() == Events(e) + old(Todo())
      ensures stateStack == old(stateStack) + [Default] && exprStack == old(exprStack) + [e]
      ensures exprIterStack == old(exprIterStack)
    {
      PendingDefault(stateStack, exprStack, exprIterStack, e);
      stateStack := stateStack + [Default];
      exprStack := exprStack + [e];
    }

    method PushExprlist(state: VisitState, e: Expr, es: ExprList)
      requires Valid() && state != Default && StateMatches(state, e)
      modifies this
      ensures Valid() && Todo() == Remaining(state, e, es) + old(Todo())
      ensures stateStack == old(stateStack) + [state]
    {
      PendingList(stateStack, exprStack, exprIterStack, state, e, es);
      stateStack := stateStack + [state];
      exprStack := exprStack + [e];
      exprIterStack := exprIterStack + [es];
    }

    method PopDefault()
      requires Valid() && stateStack != [] && stateStack[|stateStack| - 1] == Default
      modifies this
      ensures Valid() && old(Todo()) == Events(old(exprStack[|exprStack| - 1])) + Todo()
      ensures stateStack == old(stateStack)[..|old(stateStack)| - 1]
    {
      stateStack := stateStack[..|stateStack| - 1];
      exprStack := exprStack[..|exprStack| - 1];
    }

    method PopExprlist()
      requires Valid() && stateStack != [] && stateStack[|stateStack| - 1] != Default
      modifies this
      ensures Valid()
      ensures old(Todo()) == Remaining(old(stateStack[|stateStack| - 1]), old(exprStack[|exprStack| - 1]),
                                       old(exprIterStack[|exprIterStack| - 1])) + Todo()
      ensures stateStack == old(stateStack)[..|old(stateStack)| - 1]
    {
      stateStack := stateStack[..|stateStack| - 1];
      exprStack := exprStack[..|exprStack| - 1];
      exprIterStack := exprIterStack[..|exprIterStack| - 1];
    }

    /** `HandleDefaultState`: the first callback of an instruction, and its list if it has one. */
    method HandleDefaultState(e: Expr) returns (ok: bool)
      requires Valid()
      modifies this, delegate
      ensures Valid() && old(delegate.log) < delegate.log && |delegate.log| == |old(delegate.log)| + 1
      ensures ok == !delegate.fails(delegate.log[|delegate.log| - 1])
      ensures Events(e) + old(Todo()) == [delegate.log[|delegate.log| - 1]]
              + (if ok then Todo() else (Events(e) + old(Todo()))[1..])
    {
      hide Events, Remaining;
      ghost var below := Todo();
      EventsBegin(e, below);
      match e {
        case Block(_, body) =>
          ok := delegate.Call(BeginExpr(e));
          if ok {
            PushExprlist(InBlock, e, body);
          }
        case Loop(_, body) =>
          ok := delegate.Call(BeginExpr(e));
          if ok {
            PushExprlist(InLoop, e, body);
          }
        case If(_, thn, _, _) =>
          ok := delegate.Call(BeginExpr(e));
          if ok {
            PushExprlist(InIfTrue, e, thn);
          }
        case _ =>
          ok := delegate.Call(OnExpr(e));
          EventsLeaf(e);
      }
    }

    /** One turn of the loop in a state that has a list. */
    method HandleList() returns (ok: bool)
      requires Valid() && stateStack != [] && stateStack[|stateStack| - 1] != Default
      modifies this, delegate
      ensures Valid()
      ensures delegate.log == old(delegate.log) ==>
                ok && Todo() == old(Todo()) && stateStack == old(stateStack) + [Default]
      ensures delegate.log != old(delegate.log) ==>
                && old(delegate.log) < delegate.log && |delegate.log| == |old(delegate.log)| + 1 && old(Todo()) != []
                && old(Todo())[0] == delegate.log[|delegate.log| - 1]
                && ok == !delegate.fails(delegate.log[|delegate.log| - 1])
                && (ok ==> Todo() == old(Todo())[1..])
    {
      hide Events, Remaining;
      var n, k := |stateStack|, |exprIterStack|;
      var state, e, iter := stateStack[n - 1], exprStack[n - 1], exprIterStack[k - 1];
      ghost var below := ToCome(stateStack[..n - 1], exprStack[..n - 1], exprIterStack[..k - 1]);
      match iter {
        case Cons(h, t) =>
          RemainingCons(state, e, h, t, below);
          exprIterStack := exprIterStack[..k - 1] + [t];
          assert exprIterStack[..k - 1] == old(exprIterStack)[..k - 1];
          PushDefault(h);
          ok := true;
        case Nil =>
          RemainingNil(state, e, below);
          if state == InIfTrue {
            ok := delegate.Call(AfterIfTrue(e));
            if ok {
              PopExprlist();
              PushExprlist(InIfFalse, e, FalseBranch(e));
            }
          } else {
            ok := delegate.Call(EndExpr(e));
            if ok {
              PopExprlist();
            }
          }
      }
    }

    /** Exactly the callbacks of the recursion, up to the first that fails; every one of them moves the walk
        on, so it ends. */
    method VisitExpr(root: Expr) returns (ok: bool)
      modifies this, delegate
      ensures delegate.log == old(delegate.log) + Until(delegate.fails, Events(root))
      ensures ok <==> NoneFails(delegate.fails, Events(root))
    {
      hide Events, StacksOk, ToCome;
      stateStack, exprStack, exprIterStack := [], [], [];
      NothingPending();
      PushDefault(root);
      ghost var done: seq<Event> := [];
      assert done + (Events(root) + []) == Events(root);
      while stateStack != []
        invariant Valid() && NoneFails(delegate.fails, done)
        invariant done + Todo() == Events(root) && delegate.log == old(delegate.log) + done
        decreases |Todo()|, if stateStack != [] && stateStack[|stateStack| - 1] == Default then 0 else 1
      {
        ghost var todo := Todo();
        StacksSize(stateStack, exprStack, exprIterStack);
        var state, e := stateStack[|stateStack| - 1], exprStack[|exprStack| - 1];
        if state == Default {
          PopDefault();
          ok := HandleDefaultState(e);
        } else {
          ok := HandleList();
        }
        ghost var ev := if delegate.log == [] then OnExpr(e) else delegate.log[|delegate.log| - 1];
        if delegate.log != old(delegate.log) + done {
          Moved(old(delegate.log), done, todo, delegate.log, ev);
        }
        if !ok {
          Stopped(delegate.fails, done, todo, ev);
          return;
        }
        if delegate.log != old(delegate.log) + done {
          done := done + [ev];
        }
      }
      StacksEmpty(exprStack, exprIterStack);
      UntilAppend(delegate.fails, done, []);
      assert done + [] == done;
      ok := true;
    }
  }

  lemma EventsLeaf(e: Expr)
    requires !e.Block? && !e.Loop? && !e.If?
    ensures Events(e) == [OnExpr(e)]
  {
  }

  lemma NothingPending()
    ensures StacksOk([], [], []) && ToCome([], [], []) == []
  {
  }

  lemma StacksSize(states: seq<VisitState>, exprs: seq<Expr>, iters: seq<ExprList>)
    requires StacksOk(states, exprs, iters)
    ensures |states| == |exprs|
  {
  }

  lemma StacksEmpty(exprs: seq<Expr>, iters: seq<ExprList>)
    requires StacksOk([], exprs, iters)
    ensures ToCome([], exprs, iters) == []
  {
  }

  lemma Moved(before: seq<Event>, done: seq<Event>, todo: seq<Event>, log: seq<Event>, ev: Event)
    requires before + done < log && |log| == |before + done| + 1 && log[|log| - 1] == ev && todo != [] && todo[0] == ev
    ensures log == before + (done + [ev]) && (done + [ev]) + todo[1..] == done + todo
  {
    assert log == (before + done) + [ev];
  }

  lemma Stopped(fails: Event -> bool, done: seq<Event>, todo: seq<Event>, ev: Event)
    requires NoneFails(fails, done) && todo != [] && todo[0] == ev && fails(ev)
    ensures Until(fails, done + todo) == done + [ev] && !NoneFails(fails, done + todo)
  {
    UntilAppend(fails, done, todo);
    assert (done + todo)[|done|] == ev;
  }
}
