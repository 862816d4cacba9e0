/** The passes that run before C is written: every label and local gets a name, every use of one is by
    name, and looking the names up again finds what the indices said. */
module NamePasses {
  import opened Syntax
  import opened CNames

  datatype Var = Index(i: nat) | Name(s: string)

  datatype Access = Get | Set | Tee

  datatype Named =
    | NamedLocal(access: Access, v: Var)
    | NamedBlock(name: string, sig: Sig, body: NamedList)
    | NamedLoop(name: string, sig: Sig, body: NamedList)
    | NamedIf(name: string, sig: Sig, thn: NamedList, hasElse: bool, els: NamedList)
    | NamedBr(v: Var)
    | NamedBrIf(v: Var)
    | NamedBrTable(targets: seq<Var>, v: Var)
    | NamedOther(e: Expr)

  datatype NamedList = NamedNil | NamedCons(head: Named, tail: NamedList)

  // ----- As it was read ------------------------------------------------------------------------------------------

  function Indices(ds: seq<nat>): (r: seq<Var>)
    ensures |r| == |ds| && forall i :: 0 <= i < |ds| ==> r[i] == Index(ds[i])
  {
    seq(|ds|, i requires 0 <= i < |ds| => Index(ds[i]))
  }

  function Unnamed(es: ExprList): NamedList {
    match es
    case Nil => NamedNil
    case Cons(e, rest) => NamedCons(UnnamedExpr(e), Unnamed(rest))
  }

  function UnnamedExpr(e: Expr): Named {
    match e
    case Simple(LocalGet(x)) => NamedLocal(Get, Index(x))
    case Simple(LocalSet(x)) => NamedLocal(Set, Index(x))
    case Simple(LocalTee(x)) => NamedLocal(Tee, Index(x))
    case Block(sig, body) => NamedBlock("", sig, Unnamed(body))
    case Loop(sig, body) => NamedLoop("", sig, Unnamed(body))
    case If(sig, thn, hasElse, els) => NamedIf("", sig, Unnamed(thn), hasElse, Unnamed(els))
    case Br(d) => NamedBr(Index(d))
    case BrIf(d) => NamedBrIf(Index(d))
    case BrTable(targets, default) => NamedBrTable(Indices(targets), Index(default))
    case _ => NamedOther(e)
  }

  // ----- Generating names ---------------------------------------------------------------------------------------

  /** `GenerateName` without a disambiguator. */
  function Generated(prefix: string, index: nat): string {
    prefix + Decimal(index)
  }

  /** `MaybeGenerateName`: the count goes up whether or not the name is used. */
  function LabelName(name: string, prefix: string, count: nat): string {
    if name == "" then Generated(prefix, count) else name
  }

  function GenList(es: NamedList, n: nat): (NamedList, nat) {
    match es
    case NamedNil => (NamedNil, n)
    case NamedCons(e, rest) =>
      var h := GenExpr(e, n);
      var t := GenList(rest, h.1);
      (NamedCons(h.0, t.0), t.1)
  }

  function GenExpr(e: Named, n: nat): (Named, nat) {
    match e
    case NamedBlock(name, sig, body) =>
      var b := GenList(body, n + 1);
      (NamedBlock(LabelName(name, "$B", n), sig, b.0), b.1)
    case NamedLoop(name, sig, body) =>
      var b := GenList(body, n + 1);
      (NamedLoop(LabelName(name, "$L", n), sig, b.0), b.1)
    case NamedIf(name, sig, thn, hasElse, els) =>
      var t := GenList(thn, n + 1);
      var f := GenList(els, t.1);
      (NamedIf(LabelName(name, "$I", n), sig, t.0, hasElse, f.0), f.1)
    case _ => (e, n)
  }

  class NameGenerator {
    var labelCount: nat

    constructor ()
      ensures labelCount == 0
    {
      labelCount := 0;
    }

    method MaybeGenerateName(prefix: string, name: string) returns (r: string)
      modifies this
      ensures r == LabelName(name, prefix, old(labelCount)) && labelCount == old(labelCount) + 1
    {
      r := if name == "" then Generated(prefix, labelCount) else name;
      labelCount := labelCount + 1;
    }

    method VisitList(es: NamedList) returns (r: NamedList)
      modifies this
      ensures (r, labelCount) == GenList(es, old(labelCount))
      decreases es
    {
      match es
      case NamedNil => r := NamedNil;
      case NamedCons(e, rest) =>
        var h := VisitExpr(e);
        var t := VisitList(rest);
        r := NamedCons(h, t);
    }

    method VisitExpr(e: Named) returns (r: Named)
      modifies this
      ensures (r, labelCount) == GenExpr(e, old(labelCount))
      decreases e
    {
      match e
      case NamedBlock(name, sig, body) =>
        var l := MaybeGenerateName("$B", name);
        var b := VisitList(body);
        r := NamedBlock(l, sig, b);
      case NamedLoop(name, sig, body) =>
        var l := MaybeGenerateName("$L", name);
        var b := VisitList(body);
        r := NamedLoop(l, sig, b);
      case NamedIf(name, sig, thn, hasElse, els) =>
        var l := MaybeGenerateName("$I", name);
        var t := VisitList(thn);
        var f := VisitList(els);
        r := NamedIf(l, sig, t, hasElse, f);
      case _ => r := e;
    }
  }

  // ----- Applying names -----------------------------------------------------------------------------------------

  /** The binding hashes of a function and their reverse mappings. */
  datatype LocalNames = LocalNames(paramBindings: map<string, nat>, localBindings: map<string, nat>,
                                   params: seq<string>, locals: seq<string>)

  function LabelAt(labels: seq<string>, v: Var): string {
    if v.Index? && v.i < |labels| then labels[|labels| - 1 - v.i] else ""
  }

  /** `UseNameForVar`. */
  function UseName(name: string, v: Var): Var {
    if v.Index? && name != "" then Name(name) else v
  }

  function UseLabel(labels: seq<string>, v: Var): Var {
    UseName(LabelAt(labels, v), v)
  }

  function UseLabels(labels: seq<string>, vs: seq<Var>): (r: seq<Var>)
    ensures |r| == |vs| && forall i :: 0 <= i < |vs| ==> r[i] == UseLabel(labels, vs[i])
  {
    seq(|vs|, i requires 0 <= i < |vs| => UseLabel(labels, vs[i]))
  }

  /** `Func::GetLocalIndex`: parameters first, and locals behind them. `None` is `kInvalidIndex`. */
  function LocalIndex(ns: LocalNames, v: Var): Option<nat> {
    match v
    case Index(i) => Some(i)
    case Name(s) =>
      if s in ns.paramBindings then Some(ns.paramBindings[s])
      else if s in ns.localBindings then Some(|ns.params| + ns.localBindings[s])
      else None
  }

  /** `UseNameForParamAndLocalVar`: `None` is its error. */
  function UseLocal(ns: LocalNames, v: Var): Option<Var> {
    var i := LocalIndex(ns, v);
    if i.None? || i.value >= |ns.params| + |ns.locals| then None
    else Some(UseName(if i.value < |ns.params| then ns.params[i.value] else ns.locals[i.value - |ns.params|], v))
  }

  function ApplyList(ns: LocalNames, labels: seq<string>, es: NamedList): Option<NamedList>
    decreases es
  {
    match es
    case NamedNil => Some(NamedNil)
    case NamedCons(e, rest) =>
      var h := ApplyExpr(ns, labels, e);
      if h.None? then None
      else
        var t := ApplyList(ns, labels, rest);
        if t.None? then None else Some(NamedCons(h.value, t.value))
  }

  function ApplyExpr(ns: LocalNames, labels: seq<string>, e: Named): Option<Named>
    decreases e
  {
    match e
    case NamedLocal(access, v) =>
      var u := UseLocal(ns, v);
      if u.None? then None else Some(NamedLocal(access, u.value))
    case NamedBlock(name, sig, body) =>
      var b := ApplyList(ns, labels + [name], body);
      if b.None? then None else Some(NamedBlock(name, sig, b.value))
    case NamedLoop(name, sig, body) =>
      var b := ApplyList(ns, labels + [name], body);
      if b.None? then None else Some(NamedLoop(name, sig, b.value))
    case NamedIf(name, sig, thn, hasElse, els) =>
      var t := ApplyList(ns, labels + [name], thn);
      if t.None? then None
      else
        var f := ApplyList(ns, labels + [name], els);
        if f.None? then None else Some(NamedIf(name, sig, t.value, hasElse, f.value))
    case NamedBr(v) => Some(NamedBr(UseLabel(labels, v)))
    case NamedBrIf(v) => Some(NamedBrIf(UseLabel(labels, v)))
    case NamedBrTable(targets, v) => Some(NamedBrTable(UseLabels(labels, targets), UseLabel(labels, v)))
    case NamedOther(_) => Some(e)
  }

  // ----- Looking names up again -----------------------------------------------------------------------------------

  /** The innermost label of that name; the search ends on the function's label if there is none. */
  function Innermost(labels: seq<string>, s: string): nat
    decreases |labels|
  {
    var n := |labels|;
    if n == 0 || labels[n - 1] == s then 0 else 1 + Innermost(labels[..n - 1], s)
  }

  /** `CWriter::FindLabel`, as a depth: an index is asserted to mean the function's label. */
  function FindLabel(labels: seq<string>, v: Var): Option<nat> {
    match v
    case Index(i) => if i == |labels| then Some(i) else None
    case Name(s) => Some(Innermost(labels, s))
  }

  function FindLabels(labels: seq<string>, vs: seq<Var>): Option<seq<nat>> {
    if vs == [] then Some([])
    else
      var h := FindLabel(labels, vs[0]);
      var t := FindLabels(labels, vs[1..]);
      if h.None? || t.None? then None else Some([h.value] + t.value)
  }

  function LocalOp(access: Access, x: nat): Op {
    match access
    case Get => LocalGet(x)
    case Set => LocalSet(x)
    case Tee => LocalTee(x)
  }

  function ResolveList(ns: LocalNames, labels: seq<string>, es: NamedList): Option<ExprList>
    decreases es
  {
    match es
    case NamedNil => Some(Nil)
    case NamedCons(e, rest) =>
      var h := ResolveExpr(ns, labels, e);
      var t := ResolveList(ns, labels, rest);
      if h.None? || t.None? then None else Some(Cons(h.value, t.value))
  }

  function ResolveExpr(ns: LocalNames, labels: seq<string>, e: Named): Option<Expr>
    decreases e
  {
    match e
    case NamedLocal(access, v) =>
      var i := LocalIndex(ns, v);
      if i.None? then None else Some(Simple(LocalOp(access, i.value)))
    case NamedBlock(name, sig, body) =>
      var b := ResolveList(ns, labels + [name], body);
      if b.None? then None else Some(Block(sig, b.value))
    case NamedLoop(name, sig, body) =>
      var b := ResolveList(ns, labels + [name], body);
      if b.None? then None else Some(Loop(sig, b.value))
    case NamedIf(name, sig, thn, hasElse, els) =>
      var t, f := ResolveList(ns, labels + [name], thn), ResolveList(ns, labels + [name], els);
      if t.None? || f.None? then None else Some(If(sig, t.value, hasElse, f.value))
    case NamedBr(v) =>
      var d := FindLabel(labels, v);
      if d.None? then None else Some(Br(d.value))
    case NamedBrIf(v) =>
      var d := FindLabel(labels, v);
      if d.None? then None else Some(BrIf(d.value))
    case NamedBrTable(targets, v) =>
      var ds, d := FindLabels(labels, targets), FindLabel(labels, v);
      if ds.None? || d.None? then None else Some(BrTable(ds.value, d.value))
    case NamedOther(e) => Some(e)
  }

  // ----- Names and indices agree ----------------------------------------------------------------------------------

  /** Every branch is within its function, every local exists: what validation guarantees. */
  predicate Scoped(es: ExprList, depth: nat, locals: nat) {
    match es
    case Nil => true
    case Cons(e, rest) => ScopedExpr(e, depth, locals) && Scoped(rest, depth, locals)
  }

  predicate ScopedExpr(e: Expr, depth: nat, locals: nat) {
    match e
    case Simple(LocalGet(x)) => x < locals
    case Simple(LocalSet(x)) => x < locals
    case Simple(LocalTee(x)) => x < locals
    case Block(_, body) => Scoped(body, depth + 1, locals)
    case Loop(_, body) => Scoped(body, depth + 1, locals)
    case If(_, thn, _, els) => Scoped(thn, depth + 1, locals) && Scoped(els, depth + 1, locals)
    case Br(d) => d <= depth
    case BrIf(d) => d <= depth
    case BrTable(targets, default) => default <= depth && forall i :: 0 <= i < |targets| ==> targets[i] <= depth
    case _ => true
  }

  const PREFIXES: set<string> := {"$B", "$L", "$I"}

  /** Enclosing labels differ from each other and from all that are still to come. */
  ghost predicate Apart(labels: seq<string>, n: nat) {
    && (forall i, j :: 0 <= i < j < |labels| ==> labels[i] != labels[j])
    && (forall i :: 0 <= i < |labels| ==> labels[i] != "")
    && (forall i, p, k: nat :: 0 <= i < |labels| && p in PREFIXES && n <= k ==> labels[i] != Generated(p, k))
  }

  lemma GeneratedApart(p: string, q: string, k: nat, l: nat)
    requires |p| == |q| && Generated(p, k) == Generated(q, l)
    ensures p == q && k == l
  {
    var x, y := Generated(p, k), Generated(q, l);
    assert x[..|p|] == p && y[..|q|] == q;
    assert x[|p|..] == Decimal(k) && y[|q|..] == Decimal(l);
    DecimalInjective(k, l);
  }

  lemma PushApart(labels: seq<string>, p: string, n: nat)
    requires Apart(labels, n) && p in PREFIXES
    ensures Apart(labels + [Generated(p, n)], n + 1)
  {
    var labels' := labels + [Generated(p, n)];
    forall i, q, k: nat | 0 <= i < |labels'| && q in PREFIXES && n + 1 <= k
      ensures labels'[i] != Generated(q, k)
    {
      if i == |labels| && Generated(p, n) == Generated(q, k) {
        GeneratedApart(p, q, n, k);
      }
    }
  }

  lemma LaterApart(labels: seq<string>, n: nat, m: nat)
    requires Apart(labels, n) && n <= m
    ensures Apart(labels, m)
  {
  }

  lemma {:induction false} InnermostAt(labels: seq<string>, d: nat)
    requires d < |labels| && forall i, j :: 0 <= i < j < |labels| ==> labels[i] != labels[j]
    ensures Innermost(labels, labels[|labels| - 1 - d]) == d
    decreases |labels|
  {
    if d > 0 {
      InnermostAt(labels[..|labels| - 1], d - 1);
    }
  }

  /** A branch finds the label that its depth meant; only branches out of the function keep their index. */
  lemma LabelFound(labels: seq<string>, n: nat, d: nat)
    requires Apart(labels, n) && d <= |labels|
    ensures FindLabel(labels, UseLabel(labels, Index(d))) == Some(d)
    ensures UseLabel(labels, Index(d)).Index? <==> d == |labels|
  {
    if d < |labels| {
      InnermostAt(labels, d);
    }
  }

  lemma {:induction false} LabelsFound(labels: seq<string>, n: nat, ds: seq<nat>, vs: seq<Var>)
    requires Apart(labels, n) && |vs| == |ds|
    requires forall i :: 0 <= i < |ds| ==> ds[i] <= |labels| && vs[i] == UseLabel(labels, Index(ds[i]))
    ensures FindLabels(labels, vs) == Some(ds)
    decreases |ds|
  {
    if ds != [] {
      LabelFound(labels, n, ds[0]);
      LabelsFound(labels, n, ds[1..], vs[1..]);
      assert [ds[0]] + ds[1..] == ds;
    }
  }

  /** The hash and its reverse mapping. */
  predicate Bound(bindings: map<string, nat>, names: seq<string>) {
    && "" !in bindings
    && (forall i :: 0 <= i < |names| && names[i] != "" ==> names[i] in bindings && bindings[names[i]] == i)
    && (forall s :: s in bindings ==> bindings[s] < |names| && names[bindings[s]] == s)
  }

  predicate AllNamed(ns: LocalNames) {
    && Bound(ns.paramBindings, ns.params) && Bound(ns.localBindings, ns.locals)
    && (forall i :: 0 <= i < |ns.params| ==> ns.params[i] != "")
    && (forall i :: 0 <= i < |ns.locals| ==> ns.locals[i] != "")
  }

  /** A parameter's name always means the parameter; a local's name means the local if and only if no parameter
      has taken it, for parameters are looked up first. */
  lemma LocalFound(ns: LocalNames, x: nat)
    requires AllNamed(ns) && x < |ns.params| + |ns.locals|
    ensures UseLocal(ns, Index(x)).Some? && UseLocal(ns, Index(x)).value.Name?
    ensures LocalIndex(ns, UseLocal(ns, Index(x)).value) == Some(x)
       <==> x < |ns.params| || ns.locals[x - |ns.params|] !in ns.paramBindings
  {
  }

  /** No local goes by the name of a parameter. */
  predicate Disjoint(ns: LocalNames) {
    forall i :: 0 <= i < |ns.locals| ==> ns.locals[i] !in ns.paramBindings
  }

  /** Whatever the passes turn into names resolves to what the indices were. */
  lemma {:induction false} NamesResolve(ns: LocalNames, labels: seq<string>, n: nat, es: ExprList)
    requires AllNamed(ns) && Disjoint(ns) && Apart(labels, n) && Scoped(es, |labels|, |ns.params| + |ns.locals|)
    ensures n <= GenList(Unnamed(es), n).1
    ensures var r := ApplyList(ns, labels, GenList(Unnamed(es), n).0);
            r.Some? && ResolveList(ns, labels, r.value) == Some(es)
    decreases es
  {
    hide Apart, AllNamed, Disjoint;
    match es
    case Nil =>
    case Cons(e, rest) =>
      ExprResolves(ns, labels, n, e);
      var m := GenExpr(UnnamedExpr(e), n).1;
      LaterApart(labels, n, m);
      NamesResolve(ns, labels, m, rest);
  }

  lemma {:induction false} ExprResolves(ns: LocalNames, labels: seq<string>, n: nat, e: Expr)
    requires AllNamed(ns) && Disjoint(ns) && Apart(labels, n) && ScopedExpr(e, |labels|, |ns.params| + |ns.locals|)
    ensures n <= GenExpr(UnnamedExpr(e), n).1
    ensures var r := ApplyExpr(ns, labels, GenExpr(UnnamedExpr(e), n).0);
            r.Some? && ResolveExpr(ns, labels, r.value) == Some(e)
    decreases e
  {
    hide Apart, AllNamed, Disjoint, Generated;
    match e
    case Block(_, body) =>
      PushApart(labels, "$B", n);
      NamesResolve(ns, labels + [Generated("$B", n)], n + 1, body);
    case Loop(_, body) =>
      PushApart(labels, "$L", n);
      NamesResolve(ns, labels + [Generated("$L", n)], n + 1, body);
    case If(_, thn, _, els) =>
      PushApart(labels, "$I", n);
      var inner := labels + [Generated("$I", n)];
      NamesResolve(ns, inner, n + 1, thn);
      var m := GenList(Unnamed(thn), n + 1).1;
      LaterApart(inner, n + 1, m);
      NamesResolve(ns, inner, m, els);
    case Br(d) => LabelFound(labels, n, d);
    case BrIf(d) => LabelFound(labels, n, d);
    case BrTable(targets, default) =>
      LabelFound(labels, n, default);
      LabelsFound(labels, n, targets, UseLabels(labels, Indices(targets)));
    case Simple(op) =>
      if op.LocalGet? || op.LocalSet? || op.LocalTee? {
        LocalResolves(ns, op.x);
      }
    case _ =>
  }

  lemma LocalResolves(ns: LocalNames, x: nat)
    requires AllNamed(ns) && Disjoint(ns) && x < |ns.params| + |ns.locals|
    ensures UseLocal(ns, Index(x)).Some? && LocalIndex(ns, UseLocal(ns, Index(x)).value) == Some(x)
  {
    LocalFound(ns, x);
  }

  // ----- Names for locals -----------------------------------------------------------------------------------------

  /** `GenerateName` with its disambiguator. */
  function Candidate(prefix: string, index: nat, disambiguator: nat): string {
    if disambiguator == 0 then Generated(prefix, index) else Numbered(Generated(prefix, index), disambiguator)
  }

  /** The retry loop ends: different disambiguators give different names, and the hash is finite. */
  method GenerateAndBindName(bindings: map<string, nat>, prefix: string, index: nat)
    returns (after: map<string, nat>, name: string)
    requires prefix != ""
    ensures name != "" && name !in bindings && after == bindings[name := index]
    ensures Generated(prefix, index) !in bindings ==> name == Generated(prefix, index)
  {
    ghost var base := Generated(prefix, index);
    var disambiguator := 0;
    name := Candidate(prefix, index, 0);
    while name in bindings
      invariant name == Candidate(prefix, index, disambiguator)
      invariant disambiguator > 0 ==> base in bindings
      invariant forall k :: 1 <= k < disambiguator ==> Numbered(base, k) in bindings
      decreases |bindings.Keys| + 2 - disambiguator
    {
      Taken(bindings.Keys, base, disambiguator);
      disambiguator := disambiguator + 1;
      name := Candidate(prefix, index, disambiguator);
    }
    after := bindings[name := index];
  }

  lemma Taken(taken: set<string>, base: string, n: nat)
    requires forall k :: 1 <= k < n ==> Numbered(base, k) in taken
    ensures n <= |taken| + 1
  {
    if n > 0 {
      NumberedCount(base, n);
      var later := FirstNumbered(base, n) - {Numbered(base, 0)};
      SubsetSize(later, taken);
      assert FirstNumbered(base, n) == later + {Numbered(base, 0)};
    }
  }

  /** `GenerateAndBindLocalNames`: names that are there stay, the others become fresh ones. */
  method GenerateAndBindLocalNames(bindings: map<string, nat>, names: seq<string>, prefix: string)
    returns (after: map<string, nat>, named: seq<string>)
    requires Bound(bindings, names) && prefix != ""
    ensures Bound(after, named) && |named| == |names|
    ensures forall i :: 0 <= i < |names| ==> named[i] != "" && (names[i] != "" ==> named[i] == names[i])
    ensures forall s :: s in bindings ==> s in after && after[s] == bindings[s]
    ensures bindings == map[] ==> forall i :: 0 <= i < |names| ==> named[i] == Generated(prefix, i)
  {
    after, named := bindings, names;
    var i := 0;
    while i < |names|
      invariant i <= |names| == |named| && Bound(after, named)
      invariant forall k :: 0 <= k < i ==> named[k] != "" && (names[k] != "" ==> named[k] == names[k])
      invariant forall k :: i <= k < |names| ==> named[k] == names[k]
      invariant forall s :: s in bindings ==> s in after && after[s] == bindings[s]
      invariant bindings == map[] ==> forall k :: 0 <= k < i ==> named[k] == Generated(prefix, k)
    {
      if named[i] == "" {
        if bindings == map[] {
          NotYet(after, named, prefix, i);
        }
        var name;
        after, name := GenerateAndBindName(after, prefix, i);
        named := named[i := name];
      }
      i := i + 1;
    }
  }

  lemma NotYet(bindings: map<string, nat>, names: seq<string>, prefix: string, i: nat)
    requires Bound(bindings, names) && i < |names| && names[i] == ""
    requires forall k :: 0 <= k < i ==> names[k] == Generated(prefix, k)
    requires forall k :: i < k < |names| ==> names[k] == ""
    ensures Generated(prefix, i) !in bindings
  {
    if Generated(prefix, i) in bindings {
      GeneratedApart(prefix, prefix, bindings[Generated(prefix, i)], i);
    }
  }

  // ----- The applier ----------------------------------------------------------------------------------------------

  class NameApplier {
    const ns: LocalNames
    var labels: seq<string>

    constructor (names: LocalNames)
      ensures ns == names && labels == []
    {
      ns, labels := names, [];
    }

    /** The label that a variable means, searched from the innermost outwards; "" when there is none. */
    method FindLabelByVar(v: Var) returns (name: string)
      ensures v.Index? ==> name == LabelAt(labels, v)
      ensures v.Name? ==> name == if v.s in labels then v.s else ""
    {
      if v.Index? {
        return if v.i >= |labels| then "" else labels[|labels| - 1 - v.i];
      }
      var i := |labels|;
      while i > 0
        invariant 0 <= i <= |labels| && forall k :: i <= k < |labels| ==> labels[k] != v.s
      {
        i := i - 1;
        if labels[i] == v.s {
          return labels[i];
        }
      }
      name := "";
    }

    method UseNameForLabel(v: Var) returns (r: Var)
      ensures r == UseLabel(labels, v)
    {
      var name := FindLabelByVar(v);
      r := if v.Index? && name != "" then Name(name) else v;
    }

    method UseNamesForLabels(vs: seq<Var>) returns (r: seq<Var>)
      ensures r == UseLabels(labels, vs)
    {
      r := [];
      for i := 0 to |vs|
        invariant |r| == i && forall k :: 0 <= k < i ==> r[k] == UseLabel(labels, vs[k])
      {
        var v := UseNameForLabel(vs[i]);
        r := r + [v];
      }
    }

    /** Every visited label is popped again. */
    method VisitList(es: NamedList) returns (r: Option<NamedList>)
      modifies this
      ensures r == ApplyList(ns, old(labels), es) && (r.Some? ==> labels == old(labels))
      decreases es, 0
    {
      match es
      case NamedNil => r := Some(NamedNil);
      case NamedCons(e, rest) =>
        var h := VisitExpr(e);
        if h.None? {
          return None;
        }
        var t := VisitList(rest);
        r := if t.None? then None else Some(NamedCons(h.value, t.value));
    }

    method VisitBody(name: string, body: NamedList) returns (r: Option<NamedList>)
      modifies this
      ensures r == ApplyList(ns, old(labels) + [name], body) && (r.Some? ==> labels == old(labels))
      decreases body, 1
    {
      labels := labels + [name];
      r := VisitList(body);
      if r.Some? {
        labels := labels[..|labels| - 1];
      }
    }

    method VisitExpr(e: Named) returns (r: Option<Named>)
      modifies this
      ensures r == ApplyExpr(ns, old(labels), e) && (r.Some? ==> labels == old(labels))
      decreases e, 2
    {
      match e
      case NamedLocal(access, v) =>
        var u := UseLocal(ns, v);
        r := if u.None? then None else Some(NamedLocal(access, u.value));
      case NamedBlock(name, sig, body) =>
        var b := VisitBody(name, body);
        r := if b.None? then None else Some(NamedBlock(name, sig, b.value));
      case NamedLoop(name, sig, body) =>
        var b := VisitBody(name, body);
        r := if b.None? then None else Some(NamedLoop(name, sig, b.value));
      case NamedIf(name, sig, thn, hasElse, els) => r := VisitIf(e);
      case NamedBr(v) =>
        var u := UseNameForLabel(v);
        r := Some(NamedBr(u));
      case NamedBrIf(v) =>
        var u := UseNameForLabel(v);
        r := Some(NamedBrIf(u));
      case NamedBrTable(targets, v) =>
        var us := UseNamesForLabels(targets);
        var u := UseNameForLabel(v);
        r := Some(NamedBrTable(us, u));
      case NamedOther(_) => r := Some(e);
    }

    /** One label for both branches. */
    method VisitIf(e: Named) returns (r: Option<Named>)
      requires e.NamedIf?
      modifies this
      ensures r == ApplyExpr(ns, old(labels), e) && (r.Some? ==> labels == old(labels))
      decreases e, 1
    {
      labels := labels + [e.name];
      var t := VisitList(e.thn);
      if t.None? {
        return None;
      }
      var f := VisitList(e.els);
      if f.None? {
        return None;
      }
      labels := labels[..|labels| - 1];
      r := Some(NamedIf(e.name, e.sig, t.value, e.hasElse, f.value));
    }
  }

  /** The loop of `CWriter::FindLabel` over its label stack, whose first label is the function's. */
  method FindLabelInStack(stack: seq<string>, v: Var) returns (depth: nat)
    requires stack != [] && (v.Index? ==> v.i + 1 == |stack|)
    ensures FindLabel(stack[1..], v) == Some(depth)
  {
    if v.Index? {
      return |stack| - 1;
    }
    var i := |stack|;
    assert stack[1..i] == stack[1..];
    while i > 1 && stack[i - 1] != v.s
      invariant 1 <= i <= |stack|
      invariant Innermost(stack[1..], v.s) == |stack| - i + Innermost(stack[1..i], v.s)
    {
      assert stack[1..i][..i - 2] == stack[1..i - 1];
      i := i - 1;
    }
    depth := |stack| - i;
  }

  function NoNames(n: nat): (r: seq<string>)
    ensures |r| == n && forall i :: 0 <= i < n ==> r[i] == ""
  {
    seq(n, _ => "")
  }

  /** Both passes over a function that was read without names: every parameter, local and label ends up with a
      name, and the names resolve to the function as it was. */
  method NameFunction(params: nat, locals: nat, es: ExprList) returns (ns: LocalNames, named: Option<NamedList>)
    requires Scoped(es, 0, params + locals)
    ensures AllNamed(ns) && Disjoint(ns) && |ns.params| == params && |ns.locals| == locals
    ensures named.Some? && ResolveList(ns, [], named.value) == Some(es)
  {
    var paramBindings, paramNames := GenerateAndBindLocalNames(map[], NoNames(params), "$p");
    var localBindings, localNames := GenerateAndBindLocalNames(map[], NoNames(locals), "$l");
    ns := LocalNames(paramBindings, localBindings, paramNames, localNames);
    PrefixesApart(ns);
    var generator := new NameGenerator();
    var generated := generator.VisitList(Unnamed(es));
    var applier := new NameApplier(ns);
    named := applier.VisitList(generated);
    NamesResolve(ns, [], 0, es);
  }

  lemma PrefixesApart(ns: LocalNames)
    requires AllNamed(ns)
    requires forall i :: 0 <= i < |ns.params| ==> ns.params[i] == Generated("$p", i)
    requires forall i :: 0 <= i < |ns.locals| ==> ns.locals[i] == Generated("$l", i)
    ensures Disjoint(ns)
  {
    forall i | 0 <= i < |ns.locals|
      ensures ns.locals[i] !in ns.paramBindings
    {
      if ns.locals[i] in ns.paramBindings {
        GeneratedApart("$p", "$l", ns.paramBindings[ns.locals[i]], i);
      }
    }
  }
}
