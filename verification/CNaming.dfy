/** The written statements with their names: every variable, label and function is written as the symbol
    that the tables have for it, and different things get different symbols. */
module CNaming {
  import opened Syntax
  import opened CMachine
  import opened CLowering
  import opened CNames
  import opened CScopes
  import opened CWriterClass
  import Elaborate
  import NamePasses

  // ----- Text -------------------------------------------------------------------------------------------------

  datatype NamedValue =
    | Plain(name: string)
    | Number(value: Word)
    | Operator(op: BinOp, lhs: string, rhs: string)
    | Conditional(cond: string, yes: string, no: string)

  datatype NamedStmt =
    | SetTo(dst: string, e: NamedValue)
    | Jump(target: string)
    | Here(target: string)
    | IfElse(cond: string, thn: seq<NamedStmt>, els: seq<NamedStmt>)
    | SwitchOn(key: string, cases: seq<seq<NamedStmt>>, default: seq<NamedStmt>)
    | CallTo(into: Option<string>, f: string, args: seq<string>)
    | TrapNow

  /** The names that things have in the module, and what the tables make of them. */
  datatype FuncNames = FuncNames(locals: seq<string>, labels: seq<string>, globals: seq<string>, funcs: seq<string>)

  datatype SymbolEnv = SymbolEnv(names: FuncNames, locals: map<string, string>, globals: map<string, string>,
                                 stack: map<(nat, Type), string>)

  /** What a symbol can stand for. */
  datatype Thing = Variable(v: CVar) | Mark(id: nat) | Callee(f: nat)

  predicate Knows(env: SymbolEnv, t: Thing) {
    match t
    case Variable(StackVar(i, ty)) => (i, ty) in env.stack
    case Variable(LocalVar(x)) => x < |env.names.locals| && env.names.locals[x] in env.locals
    case Variable(GlobalVar(g)) => g < |env.names.globals| && env.names.globals[g] in env.globals
    case Mark(id) => id < |env.names.labels| && env.names.labels[id] in env.locals
    case Callee(f) => f < |env.names.funcs| && env.names.funcs[f] in env.globals
  }

  function SymbolOf(env: SymbolEnv, t: Thing): string
    requires Knows(env, t)
  {
    match t
    case Variable(StackVar(i, ty)) => env.stack[(i, ty)]
    case Variable(LocalVar(x)) => env.locals[env.names.locals[x]]
    case Variable(GlobalVar(g)) => env.globals[env.names.globals[g]]
    case Mark(id) => env.locals[env.names.labels[id]]
    case Callee(f) => env.globals[env.names.funcs[f]]
  }

  ghost predicate Injective(env: SymbolEnv) {
    forall a, b :: Knows(env, a) && Knows(env, b) && SymbolOf(env, a) == SymbolOf(env, b) ==> a == b
  }

  predicate KnowsVars(env: SymbolEnv, vs: seq<CVar>) {
    forall i :: 0 <= i < |vs| ==> Knows(env, Variable(vs[i]))
  }

  function RenameVars(env: SymbolEnv, vs: seq<CVar>): (r: seq<string>)
    requires KnowsVars(env, vs)
    ensures |r| == |vs| && forall i :: 0 <= i < |r| ==> r[i] == SymbolOf(env, Variable(vs[i]))
  {
    seq(|vs|, i requires 0 <= i < |vs| => SymbolOf(env, Variable(vs[i])))
  }

  predicate KnowsValue(env: SymbolEnv, e: CExpr) {
    match e
    case Value(v) => Knows(env, Variable(v))
    case Literal(_) => true
    case Infix(_, lhs, rhs) => KnowsVars(env, [lhs, rhs])
    case Choose(cond, yes, no) => KnowsVars(env, [cond, yes, no])
  }

  function RenameValue(env: SymbolEnv, e: CExpr): NamedValue
    requires KnowsValue(env, e)
  {
    match e
    case Value(v) => Plain(SymbolOf(env, Variable(v)))
    case Literal(w) => Number(w)
    case Infix(op, lhs, rhs) => var r := RenameVars(env, [lhs, rhs]); Operator(op, r[0], r[1])
    case Choose(cond, yes, no) => var r := RenameVars(env, [cond, yes, no]); Conditional(r[0], r[1], r[2])
  }

  predicate KnowsCode(env: SymbolEnv, code: seq<CStmt>) {
    code != [] ==> KnowsStmt(env, code[0]) && KnowsCode(env, code[1..])
  }

  predicate KnowsCases(env: SymbolEnv, cases: seq<CCase>) {
    cases != [] ==> KnowsCode(env, cases[0].code) && KnowsCases(env, cases[1..])
  }

  predicate KnowsStmt(env: SymbolEnv, stmt: CStmt) {
    match stmt
    case Assign(dst, e) => Knows(env, Variable(dst)) && KnowsValue(env, e)
    case Goto(id) => Knows(env, Mark(id))
    case LabelDecl(id) => Knows(env, Mark(id))
    case IfStmt(cond, thn, els) => Knows(env, Variable(cond)) && KnowsCode(env, thn) && KnowsCode(env, els)
    case Switch(key, cases, default) => Knows(env, Variable(key)) && KnowsCases(env, cases) && KnowsCode(env, default)
    case CallStmt(into, f, args) =>
      Knows(env, Callee(f)) && (into.Some? ==> Knows(env, Variable(into.value))) && KnowsVars(env, args)
    case TrapStmt => true
  }

  function RenameCode(env: SymbolEnv, code: seq<CStmt>): seq<NamedStmt>
    requires KnowsCode(env, code)
  {
    if code == [] then [] else [RenameStmt(env, code[0])] + RenameCode(env, code[1..])
  }

  function RenameCases(env: SymbolEnv, cases: seq<CCase>): seq<seq<NamedStmt>>
    requires KnowsCases(env, cases)
  {
    if cases == [] then [] else [RenameCode(env, cases[0].code)] + RenameCases(env, cases[1..])
  }

  function RenameStmt(env: SymbolEnv, stmt: CStmt): NamedStmt
    requires KnowsStmt(env, stmt)
  {
    match stmt
    case Assign(dst, e) => SetTo(SymbolOf(env, Variable(dst)), RenameValue(env, e))
    case Goto(id) => Jump(SymbolOf(env, Mark(id)))
    case LabelDecl(id) => Here(SymbolOf(env, Mark(id)))
    case IfStmt(cond, thn, els) => IfElse(SymbolOf(env, Variable(cond)), RenameCode(env, thn), RenameCode(env, els))
    case Switch(key, cases, default) =>
      SwitchOn(SymbolOf(env, Variable(key)), RenameCases(env, cases), RenameCode(env, default))
    case CallStmt(into, f, args) =>
      CallTo(if into.Some? then Some(SymbolOf(env, Variable(into.value))) else None, SymbolOf(env, Callee(f)),
             RenameVars(env, args))
    case TrapStmt => TrapNow
  }

  // ----- Text determines statements -------------------------------------------------------------------------------

  lemma SameVars(env: SymbolEnv, a: seq<CVar>, b: seq<CVar>)
    requires Injective(env) && KnowsVars(env, a) && KnowsVars(env, b) && RenameVars(env, a) == RenameVars(env, b)
    ensures a == b
  {
    hide Knows, SymbolOf;
    assert |a| == |b|;
    forall i | 0 <= i < |a|
      ensures a[i] == b[i]
    {
      assert SymbolOf(env, Variable(a[i])) == RenameVars(env, a)[i] == SymbolOf(env, Variable(b[i]));
    }
  }

  lemma SameValue(env: SymbolEnv, a: CExpr, b: CExpr)
    requires Injective(env) && KnowsValue(env, a) && KnowsValue(env, b) && RenameValue(env, a) == RenameValue(env, b)
    ensures a == b
  {
    hide Knows, SymbolOf, KnowsVars;
    match a
    case Value(v) =>
    case Literal(_) =>
    case Infix(_, lhs, rhs) =>
      assert RenameVars(env, [lhs, rhs]) == RenameVars(env, [b.lhs, b.rhs]);
      SameVars(env, [lhs, rhs], [b.lhs, b.rhs]);
      assert [lhs, rhs][0] == [b.lhs, b.rhs][0] && [lhs, rhs][1] == [b.lhs, b.rhs][1];
    case Choose(cond, yes, no) =>
      var x, y := [cond, yes, no], [b.cond, b.yes, b.no];
      assert RenameVars(env, x) == RenameVars(env, y);
      SameVars(env, x, y);
      assert x[0] == y[0] && x[1] == y[1] && x[2] == y[2];
  }

  /** The named text of a function body can come from one body only. */
  lemma {:induction false} SameCode(env: SymbolEnv, a: seq<CStmt>, b: seq<CStmt>)
    requires Injective(env) && KnowsCode(env, a) && KnowsCode(env, b) && RenameCode(env, a) == RenameCode(env, b)
    ensures a == b
  {
    hide RenameStmt, KnowsStmt, Injective;
    if a != [] && b != [] {
      assert RenameCode(env, a)[0] == RenameCode(env, b)[0];
      assert RenameCode(env, a)[1..] == RenameCode(env, b)[1..];
      SameStmt(env, a[0], b[0]);
      SameCode(env, a[1..], b[1..]);
      assert a == [a[0]] + a[1..] && b == [b[0]] + b[1..];
    }
  }

  lemma {:induction false} SameCases(env: SymbolEnv, a: seq<CCase>, b: seq<CCase>)
    requires Injective(env) && KnowsCases(env, a) && KnowsCases(env, b) && RenameCases(env, a) == RenameCases(env, b)
    ensures a == b
  {
    hide RenameCode, KnowsCode, Injective;
    if a != [] && b != [] {
      assert RenameCases(env, a)[0] == RenameCases(env, b)[0];
      assert RenameCases(env, a)[1..] == RenameCases(env, b)[1..];
      SameCode(env, a[0].code, b[0].code);
      SameCases(env, a[1..], b[1..]);
      assert a == [a[0]] + a[1..] && b == [b[0]] + b[1..];
    }
  }

  lemma {:induction false} SameStmt(env: SymbolEnv, a: CStmt, b: CStmt)
    requires Injective(env) && KnowsStmt(env, a) && KnowsStmt(env, b) && RenameStmt(env, a) == RenameStmt(env, b)
    ensures a == b
  {
    hide Knows, SymbolOf, RenameValue, KnowsValue, RenameCode, KnowsCode, RenameCases, KnowsCases, KnowsVars;
    match a
    case Assign(_, e) => SameValue(env, e, b.e);
    case Goto(id) => assert Mark(id) == Mark(b.id);
    case LabelDecl(id) => assert Mark(id) == Mark(b.id);
    case IfStmt(_, thn, els) => SameCode(env, thn, b.thn); SameCode(env, els, b.els);
    case Switch(_, cases, default) => SameCases(env, cases, b.cases); SameCode(env, default, b.default);
    case CallStmt(_, f, args) =>
      assert Callee(f) == Callee(b.f);
      SameVars(env, args, b.args);
    case TrapStmt =>
  }

  // ----- Stack variables are named on the way --------------------------------------------------------------------

  /** The same tables, perhaps with more stack variables. */
  predicate MoreNamed(before: SymbolEnv, after: SymbolEnv) {
    && after.names == before.names && after.locals == before.locals && after.globals == before.globals
    && forall v :: v in before.stack ==> v in after.stack && after.stack[v] == before.stack[v]
  }

  lemma ThingExtends(before: SymbolEnv, after: SymbolEnv, t: Thing)
    requires MoreNamed(before, after) && Knows(before, t)
    ensures Knows(after, t) && SymbolOf(after, t) == SymbolOf(before, t)
  {
  }

  lemma VarsExtend(before: SymbolEnv, after: SymbolEnv, vs: seq<CVar>)
    requires MoreNamed(before, after) && KnowsVars(before, vs)
    ensures KnowsVars(after, vs) && RenameVars(after, vs) == RenameVars(before, vs)
  {
    hide MoreNamed, Knows, SymbolOf;
    forall i | 0 <= i < |vs|
      ensures Knows(after, Variable(vs[i])) && SymbolOf(after, Variable(vs[i])) == SymbolOf(before, Variable(vs[i]))
    {
      ThingExtends(before, after, Variable(vs[i]));
    }
  }

  lemma ValueExtends(before: SymbolEnv, after: SymbolEnv, e: CExpr)
    requires MoreNamed(before, after) && KnowsValue(before, e)
    ensures KnowsValue(after, e) && RenameValue(after, e) == RenameValue(before, e)
  {
    hide MoreNamed, Knows, SymbolOf, KnowsVars;
    match e
    case Value(v) => ThingExtends(before, after, Variable(v));
    case Literal(_) =>
    case Infix(_, lhs, rhs) => VarsExtend(before, after, [lhs, rhs]);
    case Choose(cond, yes, no) => VarsExtend(before, after, [cond, yes, no]);
  }

  lemma {:induction false} CodeExtends(before: SymbolEnv, after: SymbolEnv, code: seq<CStmt>)
    requires MoreNamed(before, after) && KnowsCode(before, code)
    ensures KnowsCode(after, code) && RenameCode(after, code) == RenameCode(before, code)
  {
    hide MoreNamed, KnowsStmt, RenameStmt;
    if code != [] {
      StmtExtends(before, after, code[0]);
      CodeExtends(before, after, code[1..]);
    }
  }

  lemma {:induction false} CasesExtend(before: SymbolEnv, after: SymbolEnv, cases: seq<CCase>)
    requires MoreNamed(before, after) && KnowsCases(before, cases)
    ensures KnowsCases(after, cases) && RenameCases(after, cases) == RenameCases(before, cases)
  {
    hide MoreNamed, KnowsCode, RenameCode;
    if cases != [] {
      CodeExtends(before, after, cases[0].code);
      CasesExtend(before, after, cases[1..]);
    }
  }

  lemma {:induction false} StmtExtends(before: SymbolEnv, after: SymbolEnv, stmt: CStmt)
    requires MoreNamed(before, after) && KnowsStmt(before, stmt)
    ensures KnowsStmt(after, stmt) && RenameStmt(after, stmt) == RenameStmt(before, stmt)
  {
    hide MoreNamed, Knows, SymbolOf, KnowsValue, RenameValue, KnowsCode, RenameCode, KnowsCases, RenameCases, KnowsVars;
    match stmt
    case Assign(dst, e) => ThingExtends(before, after, Variable(dst)); ValueExtends(before, after, e);
    case Goto(id) => ThingExtends(before, after, Mark(id));
    case LabelDecl(id) => ThingExtends(before, after, Mark(id));
    case IfStmt(cond, thn, els) =>
      ThingExtends(before, after, Variable(cond));
      CodeExtends(before, after, thn);
      CodeExtends(before, after, els);
    case Switch(key, cases, default) =>
      ThingExtends(before, after, Variable(key));
      CasesExtend(before, after, cases);
      CodeExtends(before, after, default);
    case CallStmt(into, f, args) =>
      ThingExtends(before, after, Callee(f));
      VarsExtend(before, after, args);
      if into.Some? {
        ThingExtends(before, after, Variable(into.value));
      }
    case TrapStmt =>
  }

  predicate DistinctNames(names: seq<string>) {
    forall i, j :: 0 <= i < j < |names| ==> names[i] != names[j]
  }

  /** DistinctNames names and tables in which no two entries share a symbol: no two things share one. */
  lemma TablesInjective(env: SymbolEnv, taken: set<string>)
    requires DistinctNames(env.names.locals + env.names.labels) && DistinctNames(env.names.globals + env.names.funcs)
    requires forall n :: n in env.locals ==> env.locals[n] !in taken
    requires forall v :: v in env.stack ==> env.stack[v] !in taken
    requires forall n :: n in env.globals ==> env.globals[n] in taken
    requires forall n, k :: n in env.locals && k in env.locals && n != k ==> env.locals[n] != env.locals[k]
    requires forall n, k :: n in env.globals && k in env.globals && n != k ==> env.globals[n] != env.globals[k]
    requires forall v, w :: v in env.stack && w in env.stack && v != w ==> env.stack[v] != env.stack[w]
    requires forall n, v :: n in env.locals && v in env.stack ==> env.locals[n] != env.stack[v]
    ensures Injective(env)
  {
    hide DistinctNames;
    forall a, b | Knows(env, a) && Knows(env, b) && SymbolOf(env, a) == SymbolOf(env, b)
      ensures a == b
    {
      if IsLocal(a) && IsLocal(b) {
        LocalEntry(env, a);
        LocalEntry(env, b);
        SameName(env.names.locals + env.names.labels, Position(env.names, a), Position(env.names, b));
      } else if IsGlobal(a) && IsGlobal(b) {
        GlobalEntry(env, a);
        GlobalEntry(env, b);
        SameName(env.names.globals + env.names.funcs, Position(env.names, a), Position(env.names, b));
      }
    }
  }

  lemma SameName(ns: seq<string>, i: nat, j: nat)
    requires DistinctNames(ns) && i < |ns| && j < |ns| && ns[i] == ns[j]
    ensures i == j
  {
  }

  lemma LocalEntry(env: SymbolEnv, t: Thing)
    requires Knows(env, t) && IsLocal(t)
    ensures var all, k := env.names.locals + env.names.labels, Position(env.names, t);
            k < |all| && all[k] in env.locals && SymbolOf(env, t) == env.locals[all[k]]
  {
  }

  lemma GlobalEntry(env: SymbolEnv, t: Thing)
    requires Knows(env, t) && IsGlobal(t)
    ensures var all, k := env.names.globals + env.names.funcs, Position(env.names, t);
            k < |all| && all[k] in env.globals && SymbolOf(env, t) == env.globals[all[k]]
  {
  }

  predicate IsLocal(t: Thing) {
    t.Mark? || (t.Variable? && t.v.LocalVar?)
  }

  predicate IsGlobal(t: Thing) {
    t.Callee? || (t.Variable? && t.v.GlobalVar?)
  }

  /** Where a thing's name is among the locals and labels, or among the globals and functions. */
  function Position(names: FuncNames, t: Thing): nat {
    match t
    case Variable(StackVar(_, _)) => 0
    case Variable(LocalVar(x)) => x
    case Variable(GlobalVar(g)) => g
    case Mark(id) => |names.locals| + id
    case Callee(f) => |names.globals| + f
  }

  lemma NameAgain(a: seq<string>, b: seq<string>)
    ensures forall i :: 0 <= i < |a| ==> a[i] == (a + b)[i]
    ensures forall i :: 0 <= i < |b| ==> b[i] == (a + b)[|a| + i]
  {
  }

  /** No earlier name is the same. */
  predicate FirstAt(ns: seq<string>, k: nat)
    requires k < |ns|
  {
    forall j :: 0 <= j < k ==> ns[j] != ns[k]
  }

  lemma FirstOneMore(ns: seq<string>, name: string)
    ensures forall k :: 0 <= k < |ns| ==> (FirstAt(ns + [name], k) <==> FirstAt(ns, k))
    ensures FirstAt(ns + [name], |ns|) <==> name !in ns
  {
    var ns' := ns + [name];
    forall k | 0 <= k < |ns|
      ensures FirstAt(ns', k) <==> FirstAt(ns, k)
    {
      assert forall j :: 0 <= j <= k ==> ns'[j] == ns[j];
    }
    assert forall j :: 0 <= j < |ns| ==> ns'[j] == ns[j];
  }

  lemma AllFirst(ns: seq<string>)
    ensures DistinctNames(ns) <==> forall k :: 0 <= k < |ns| ==> FirstAt(ns, k)
  {
    if DistinctNames(ns) {
    } else {
      var i, j :| 0 <= i < j < |ns| && ns[i] == ns[j];
      assert !FirstAt(ns, j);
    }
  }

  /** `symbols` were declared for `ns`, on top of the symbols `taken` and the entries `before`. */
  ghost predicate Declared(ns: seq<string>, symbols: seq<string>, before: map<string, string>, taken: set<string>,
                           now: map<string, string>, syms: set<string>)
  {
    && |symbols| == |ns| && taken <= syms
    && now.Keys == before.Keys + (set n | n in ns)
    && NewSymbols(symbols, taken, syms)
    && forall k :: 0 <= k < |ns| ==> (now[ns[k]] == symbols[k] <==> ns[k] !in before && FirstAt(ns, k))
  }

  predicate NewSymbols(symbols: seq<string>, taken: set<string>, syms: set<string>) {
    && DistinctNames(symbols)
    && forall k :: 0 <= k < |symbols| ==> IsIdentifier(symbols[k]) && symbols[k] in syms && symbols[k] !in taken
  }

  lemma FreshOneMore(symbols: seq<string>, taken: set<string>, syms: set<string>, symbol: string)
    requires NewSymbols(symbols, taken, syms) && taken <= syms && symbol !in syms && IsIdentifier(symbol)
    ensures NewSymbols(symbols + [symbol], taken, syms + {symbol})
  {
    hide IsIdentifier;
  }

  lemma DeclareOne(ns: seq<string>, symbols: seq<string>, before: map<string, string>, taken: set<string>,
                   now: map<string, string>, syms: set<string>, name: string, symbol: string, now': map<string, string>)
    requires Declared(ns, symbols, before, taken, now, syms)
    requires symbol !in syms && IsIdentifier(symbol)
    requires now'.Keys == now.Keys + {name} && (forall n :: n in now ==> now'[n] == now[n])
    requires now'[name] == symbol <==> name !in now
    ensures Declared(ns + [name], symbols + [symbol], before, taken, now', syms + {symbol})
  {
    hide IsIdentifier, NewSymbols, FirstAt;
    var ns', symbols' := ns + [name], symbols + [symbol];
    FreshOneMore(symbols, taken, syms, symbol);
    FirstOneMore(ns, name);
    assert (set n | n in ns') == (set n | n in ns) + {name};
    forall k | 0 <= k < |ns'|
      ensures now'[ns'[k]] == symbols'[k] <==> ns'[k] !in before && FirstAt(ns', k)
    {
      if k < |ns| {
        assert ns[k] in now.Keys;
      } else {
        assert name in now <==> name in now.Keys;
      }
    }
  }

  /** `CWriter` as far as it names things. */
  class NamedWriter {
    const table: SymbolTable
    const names: FuncNames

    constructor (t: SymbolTable, ns: FuncNames)
      ensures table == t && names == ns
    {
      table, names := t, ns;
    }

    function Tables(): SymbolEnv
      reads table
    {
      SymbolEnv(names, table.localSymMap, table.globalSymMap, table.stackVarSymMap)
    }

    function Things(): Scope {
      Scope(|names.locals|, |names.labels|, |names.globals|, |names.funcs|)
    }

    /** Everything but the stack variables is named. */
    ghost predicate TablesReady()
      reads table
    {
      && table.Valid()
      && (forall n :: n in names.locals + names.labels ==> n in table.localSymMap)
      && (forall n :: n in names.globals + names.funcs ==> n in table.globalSymMap)
    }

    method WriteThing(t: Thing) returns (symbol: string)
      requires TablesReady()
      requires match t
               case Variable(v) => VarIn(Things(), v)
               case Mark(id) => id < |names.labels|
               case Callee(f) => f < |names.funcs|
      modifies table`localSyms, table`stackVarSymMap
      ensures TablesReady() && MoreNamed(old(Tables()), Tables()) && Knows(Tables(), t) && symbol == SymbolOf(Tables(), t)
    {
      match t
      case Variable(StackVar(i, ty)) => symbol := table.StackVarName(i, ty);
      case Variable(LocalVar(x)) =>
        assert names.locals[x] in names.locals;
        symbol := table.localSymMap[names.locals[x]];
      case Variable(GlobalVar(g)) =>
        assert names.globals[g] in names.globals;
        symbol := table.globalSymMap[names.globals[g]];
      case Mark(id) =>
        assert names.labels[id] in names.labels;
        symbol := table.localSymMap[names.labels[id]];
      case Callee(f) =>
        assert names.funcs[f] in names.funcs;
        symbol := table.globalSymMap[names.funcs[f]];
    }

    method WriteVars(vs: seq<CVar>) returns (r: seq<string>)
      requires TablesReady() && VarsIn(Things(), vs)
      modifies table`localSyms, table`stackVarSymMap
      ensures TablesReady() && MoreNamed(old(Tables()), Tables()) && KnowsVars(Tables(), vs)
              && r == RenameVars(Tables(), vs)
    {
      hide Knows, SymbolOf, VarIn;
      r := [];
      for i := 0 to |vs|
        invariant TablesReady() && MoreNamed(old(Tables()), Tables())
        invariant KnowsVars(Tables(), vs[..i]) && r == RenameVars(Tables(), vs[..i])
      {
        ghost var before := Tables();
        var symbol := WriteThing(Variable(vs[i]));
        VarsExtend(before, Tables(), vs[..i]);
        assert vs[..i + 1] == vs[..i] + [vs[i]];
        r := r + [symbol];
      }
      assert vs[..|vs|] == vs;
    }

    method WriteValue(e: CExpr) returns (r: NamedValue)
      requires TablesReady() && ValueIn(Things(), e)
      modifies table`localSyms, table`stackVarSymMap
      ensures TablesReady() && MoreNamed(old(Tables()), Tables()) && KnowsValue(Tables(), e)
              && r == RenameValue(Tables(), e)
    {
      hide Knows, SymbolOf, VarIn, MoreNamed, KnowsVars;
      match e
      case Value(v) =>
        var symbol := WriteThing(Variable(v));
        r := Plain(symbol);
      case Literal(w) =>
        r := Number(w);
        NothingNew(Tables());
      case Infix(op, lhs, rhs) =>
        var s := WriteVars([lhs, rhs]);
        r := Operator(op, s[0], s[1]);
      case Choose(cond, yes, no) =>
        var s := WriteVars([cond, yes, no]);
        r := Conditional(s[0], s[1], s[2]);
    }

    method WriteCode(code: seq<CStmt>) returns (r: seq<NamedStmt>)
      requires TablesReady() && CodeIn(Things(), code)
      modifies table`localSyms, table`stackVarSymMap
      ensures TablesReady() && MoreNamed(old(Tables()), Tables()) && KnowsCode(Tables(), code)
              && r == RenameCode(Tables(), code)
      decreases code
    {
      hide Knows, SymbolOf, MoreNamed, KnowsStmt, RenameStmt, TablesReady, StmtIn;
      NothingNew(Tables());
      r := [];
      if code != [] {
        ghost var first := Tables();
        var h := WriteStmt(code[0]);
        ghost var second := Tables();
        var t := WriteCode(code[1..]);
        StmtExtends(second, Tables(), code[0]);
        ExtendsTwice(first, second, Tables());
        r := [h] + t;
      }
    }

    method WriteCases(cases: seq<CCase>) returns (r: seq<seq<NamedStmt>>)
      requires TablesReady() && forall k :: 0 <= k < |cases| ==> CodeIn(Things(), cases[k].code)
      modifies table`localSyms, table`stackVarSymMap
      ensures TablesReady() && MoreNamed(old(Tables()), Tables()) && KnowsCases(Tables(), cases)
              && r == RenameCases(Tables(), cases)
      decreases cases
    {
      hide Knows, SymbolOf, MoreNamed, KnowsCode, RenameCode, TablesReady, CodeIn;
      NothingNew(Tables());
      r := [];
      if cases != [] {
        ghost var first := Tables();
        var h := WriteCode(cases[0].code);
        ghost var second := Tables();
        var t := WriteCases(cases[1..]);
        CodeExtends(second, Tables(), cases[0].code);
        ExtendsTwice(first, second, Tables());
        r := [h] + t;
      }
    }

    method WriteStmt(stmt: CStmt) returns (r: NamedStmt)
      requires TablesReady() && StmtIn(Things(), stmt)
      modifies table`localSyms, table`stackVarSymMap
      ensures TablesReady() && MoreNamed(old(Tables()), Tables()) && KnowsStmt(Tables(), stmt)
              && r == RenameStmt(Tables(), stmt)
      decreases stmt
    {
      hide Knows, SymbolOf, MoreNamed, KnowsCode, RenameCode, KnowsCases, RenameCases, KnowsValue, RenameValue,
           KnowsVars;
      hide TablesReady, CodeIn, VarIn, VarsIn, ValueIn;
      ghost var a := Tables();
      match stmt
      case Assign(dst, e) =>
        var name := WriteThing(Variable(dst));
        ghost var b := Tables();
        var value := WriteValue(e);
        ThingExtends(b, Tables(), Variable(dst));
        ExtendsTwice(a, b, Tables());
        r := SetTo(name, value);
      case Goto(id) =>
        var name := WriteThing(Mark(id));
        r := Jump(name);
      case LabelDecl(id) =>
        var name := WriteThing(Mark(id));
        r := Here(name);
      case IfStmt(cond, thn, els) =>
        var name := WriteThing(Variable(cond));
        ghost var b := Tables();
        var t := WriteCode(thn);
        ghost var c := Tables();
        var f := WriteCode(els);
        ExtendsTwice(b, c, Tables());
        ExtendsTwice(a, b, Tables());
        ThingExtends(b, Tables(), Variable(cond));
        CodeExtends(c, Tables(), thn);
        r := IfElse(name, t, f);
      case Switch(key, cases, default) => r := WriteSwitch(key, cases, default);
      case CallStmt(into, f, args) => r := WriteCallStmt(into, f, args);
      case TrapStmt =>
        NothingNew(a);
        r := TrapNow;
    }

    method WriteSwitch(key: CVar, cases: seq<CCase>, default: seq<CStmt>) returns (r: NamedStmt)
      requires TablesReady() && StmtIn(Things(), Switch(key, cases, default))
      modifies table`localSyms, table`stackVarSymMap
      ensures var stmt := Switch(key, cases, default);
              && TablesReady() && MoreNamed(old(Tables()), Tables()) && KnowsStmt(Tables(), stmt)
              && r == RenameStmt(Tables(), stmt)
      decreases Switch(key, cases, default), -1
    {
      hide Knows, SymbolOf, MoreNamed, KnowsCode, RenameCode, KnowsCases, RenameCases, TablesReady, CodeIn, VarIn;
      ghost var a := Tables();
      var name := WriteThing(Variable(key));
      ghost var b := Tables();
      var cs := WriteCases(cases);
      ghost var c := Tables();
      var d := WriteCode(default);
      ExtendsTwice(b, c, Tables());
      ExtendsTwice(a, b, Tables());
      ThingExtends(b, Tables(), Variable(key));
      CasesExtend(c, Tables(), cases);
      r := SwitchOn(name, cs, d);
    }

    method WriteCallStmt(into: Option<CVar>, f: nat, args: seq<CVar>) returns (r: NamedStmt)
      requires TablesReady() && StmtIn(Things(), CallStmt(into, f, args))
      modifies table`localSyms, table`stackVarSymMap
      ensures var stmt := CallStmt(into, f, args);
              && TablesReady() && MoreNamed(old(Tables()), Tables()) && KnowsStmt(Tables(), stmt)
              && r == RenameStmt(Tables(), stmt)
    {
      hide Knows, SymbolOf, MoreNamed, KnowsVars, TablesReady, VarIn, VarsIn;
      ghost var a := Tables();
      NothingNew(a);
      var dst := None;
      if into.Some? {
        var name := WriteThing(Variable(into.value));
        dst := Some(name);
      }
      ghost var b := Tables();
      var callee := WriteThing(Callee(f));
      ghost var c := Tables();
      var vs := WriteVars(args);
      ExtendsTwice(b, c, Tables());
      ExtendsTwice(a, b, Tables());
      if into.Some? {
        ThingExtends(b, Tables(), Variable(into.value));
      }
      ThingExtends(c, Tables(), Callee(f));
      r := CallTo(dst, callee, vs);
    }

    /** Declares names one after the other. The tables give a declared symbol back only for a name that was
        not there before. */
    method DefineAll(ns: seq<string>) returns (symbols: seq<string>)
      requires table.Valid()
      modifies table`localSyms, table`localSymMap
      ensures table.Valid()
      ensures Declared(ns, symbols, old(table.localSymMap), old(table.localSyms), table.localSymMap, table.localSyms)
    {
      hide IsIdentifier;
      ghost var before, taken := table.localSymMap, table.localSyms;
      symbols := [];
      for i := 0 to |ns|
        invariant table.Valid() && Declared(ns[..i], symbols, before, taken, table.localSymMap, table.localSyms)
      {
        ghost var now, syms := table.localSymMap, table.localSyms;
        var symbol := table.DefineLocalScopeName(ns[i]);
        DeclareOne(ns[..i], symbols, before, taken, now, syms, ns[i], symbol, table.localSymMap);
        assert ns[..i + 1] == ns[..i] + [ns[i]];
        symbols := symbols + [symbol];
      }
      assert ns[..|ns|] == ns;
    }

    lemma NamesDefined(all: seq<string>)
      requires table.localSymMap.Keys == {} + (set n | n in all)
      ensures forall n :: n in all ==> n in table.localSymMap
    {
      forall n | n in all ensures n in table.localSymMap {
        assert n in table.localSymMap.Keys;
      }
    }

    /** A function's text: what is declared, and its statements by name. What is declared is what is used
        exactly if no two locals or labels have the same name; and then different things are different. */
    method NameFunc(fn: CFunc) returns (symbols: seq<string>, code: seq<NamedStmt>)
      requires table.GlobalsValid() && |names.locals| == |fn.locals| && CodeIn(Things(), fn.body)
      requires forall n :: n in names.globals + names.funcs ==> n in table.globalSymMap
      modifies table`localSyms, table`localSymMap, table`stackVarSymMap
      ensures TablesReady() && KnowsCode(Tables(), fn.body) && code == RenameCode(Tables(), fn.body)
      ensures |symbols| == |names.locals| + |names.labels| && DistinctNames(symbols)
      ensures forall k :: 0 <= k < |symbols| ==> IsIdentifier(symbols[k]) && symbols[k] !in table.globalSyms
      ensures DeclaredAsUsed(symbols) <==> DistinctNames(names.locals + names.labels)
      ensures DistinctNames(names.locals + names.labels) && DistinctNames(names.globals + names.funcs)
              ==> Injective(Tables())
    {
      hide CodeIn, KnowsCode, RenameCode, Knows, SymbolOf, IsIdentifier, FirstAt;
      table.BeginFunc();
      ghost var taken := table.localSyms;
      var all := names.locals + names.labels;
      symbols := DefineAll(all);
      NamesDefined(all);
      ghost var syms := table.localSyms;
      code := WriteCode(fn.body);
      assert Declared(all, symbols, map[], taken, table.localSymMap, syms);
      UsesAre(symbols);
      GiveBackFirst(table.localSymMap, all, symbols, taken, syms);
      if DistinctNames(all) && DistinctNames(names.globals + names.funcs) {
        TablesInjective(Tables(), table.globalSyms);
      }
    }

    /** The tables lead every use of a local or label to its declaration. */
    ghost predicate DeclaredAsUsed(symbols: seq<string>)
      requires |symbols| == |names.locals| + |names.labels| && TablesReady()
      reads table
    {
      && (forall x :: 0 <= x < |names.locals| ==> SymbolFor(Variable(LocalVar(x))) == symbols[x])
      && forall id :: 0 <= id < |names.labels| ==> SymbolFor(Mark(id)) == symbols[|names.locals| + id]
    }

    function SymbolFor(t: Thing): string
      requires IsLocal(t) && TablesReady() && Position(names, t) < |names.locals| + |names.labels|
      requires t.Mark? || t.v.x < |names.locals|
      reads table
    {
      var all := names.locals + names.labels;
      NameAgain(names.locals, names.labels);
      assert all[Position(names, t)] in table.localSymMap;
      SymbolOf(Tables(), t)
    }

    lemma UsesAre(symbols: seq<string>)
      requires TablesReady() && |symbols| == |names.locals + names.labels|
      ensures DeclaredAsUsed(symbols) <==> GiveBack(table.localSymMap, names.locals + names.labels, symbols)
    {
      hide Knows;
      var all, now := names.locals + names.labels, table.localSymMap;
      NameAgain(names.locals, names.labels);
      if DeclaredAsUsed(symbols) {
        forall k | 0 <= k < |all|
          ensures all[k] in now && now[all[k]] == symbols[k]
        {
          if k < |names.locals| {
            assert SymbolFor(Variable(LocalVar(k))) == symbols[k];
          } else {
            assert SymbolFor(Mark(k - |names.locals|)) == symbols[k];
          }
        }
      }
    }
  }

  /** Looking up each name gives its symbol. */
  predicate GiveBack(now: map<string, string>, ns: seq<string>, symbols: seq<string>)
    requires |symbols| == |ns|
  {
    forall k :: 0 <= k < |ns| ==> ns[k] in now && now[ns[k]] == symbols[k]
  }

  lemma GiveBackFirst(now: map<string, string>, ns: seq<string>, symbols: seq<string>, taken: set<string>,
                      syms: set<string>)
    requires Declared(ns, symbols, map[], taken, now, syms)
    ensures GiveBack(now, ns, symbols) <==> DistinctNames(ns)
  {
    hide FirstAt, NewSymbols, DistinctNames;
    AllFirst(ns);
    forall k | 0 <= k < |ns|
      ensures ns[k] in now
    {
      assert ns[k] in now.Keys;
    }
  }

  /** A validated function from instructions to named text. */
  method WriteNamedFunc(m: Module, f: nat, table: SymbolTable, names: FuncNames)
    returns (writer: NamedWriter, symbols: seq<string>, code: seq<NamedStmt>)
    requires f < |m.funcs| && ConcreteModule(m) && Narrow(m) && Elaborate.ElabFunc(m, f).Some?
    requires |names.locals| == |LowerFunc(m, f).locals| && |names.labels| == LabelCount(m, f)
    requires |names.globals| == |m.globals| && |names.funcs| == |m.funcs|
    requires table.GlobalsValid() && forall n :: n in names.globals + names.funcs ==> n in table.globalSymMap
    modifies table`localSyms, table`localSymMap, table`stackVarSymMap
    ensures writer.table == table && writer.names == names && writer.TablesReady()
    ensures |symbols| == |names.locals| + |names.labels|
    ensures var fn := LowerFunc(m, f);
            KnowsCode(writer.Tables(), fn.body) && code == RenameCode(writer.Tables(), fn.body)
    ensures writer.DeclaredAsUsed(symbols) <==> DistinctNames(names.locals + names.labels)
    ensures DistinctNames(names.locals + names.labels) && DistinctNames(names.globals + names.funcs)
            ==> Injective(writer.Tables())
  {
    hide LowerFunc, CodeIn, KnowsCode, RenameCode, ConcreteModule, Narrow, Elaborate.ElabFunc, LabelCount;
    WrittenInScope(m, f);
    var fn := WriteFunc(m, f);
    writer := new NamedWriter(table, names);
    symbols, code := writer.NameFunc(fn);
  }

  /** Names need not be distinct: the name generator gives the first block the name of a local that is
      called `$B0`, and then `goto` and label differ. */
  lemma LocalLikeLabel()
    ensures !DistinctNames(["$B0"] + ["$Bfunc", NamePasses.LabelName("", "$B", 0)])
  {
    assert Decimal(0) == "0";
    var all := ["$B0"] + ["$Bfunc", NamePasses.LabelName("", "$B", 0)];
    assert all[0] == all[2];
  }

  lemma NothingNew(env: SymbolEnv)
    ensures MoreNamed(env, env)
  {
  }

  lemma ExtendsTwice(a: SymbolEnv, b: SymbolEnv, c: SymbolEnv)
    requires MoreNamed(a, b) && MoreNamed(b, c)
    ensures MoreNamed(a, c)
  {
  }
}
