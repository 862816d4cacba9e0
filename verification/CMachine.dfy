/** The C that wasm2c writes, as statements, and what running it means: block-scoped braces, labels,
    `goto`, `switch`, calls with their own variables, and variables that hold nothing until they are
    assigned. */
module CMachine {
  import opened Syntax
  import Semantics

  /** A stack variable is named by its position on the operand stack and the type held there. */
  datatype CVar = StackVar(index: nat, ty: Type) | LocalVar(x: nat) | GlobalVar(g: nat)

  datatype CExpr =
    | Value(v: CVar)
    | Literal(value: Word)
    | Infix(op: BinOp, lhs: CVar, rhs: CVar)
    | Choose(cond: CVar, yes: CVar, no: CVar)

  /** The cases of a `switch` all end in `goto`, so none falls through into the next. */
  datatype CStmt =
    | Assign(dst: CVar, e: CExpr)
    | Goto(id: nat)
    | LabelDecl(id: nat)
    | IfStmt(cond: CVar, thn: seq<CStmt>, els: seq<CStmt>)
    | Switch(key: CVar, cases: seq<CCase>, default: seq<CStmt>)
    | CallStmt(into: Option<CVar>, f: nat, args: seq<CVar>)
    | TrapStmt

  datatype CCase = CCase(code: seq<CStmt>)

  /** Parameters come first among the locals; a function returns the variable for the bottom of the
      operand stack. */
  datatype CFunc = CFunc(sig: Sig, locals: seq<Type>, body: seq<CStmt>)

  datatype CModule = CModule(funcs: seq<CFunc>, globals: seq<Type>)

  /** A place in nested braces: statement `i` of `code`, then whatever follows the closing brace. */
  datatype Kont = Stop | At(code: seq<CStmt>, i: nat, below: Kont)

  datatype Caller = Caller(f: nat, kont: Kont, vars: map<CVar, Word>, locals: seq<Word>, dst: Option<CVar>)

  datatype CStatus = Running | Finished(vals: seq<Word>) | Trapped(kind: Semantics.TrapKind) | Exhausted | Fault

  datatype Config = Config(
    status: CStatus, f: nat, kont: Kont, vars: map<CVar, Word>, locals: seq<Word>, globals: seq<Word>,
      callers: seq<Caller>)

  // ----- Variables ---------------------------------------------------------------------------------

  /** Reading a variable that was never assigned is undefined. */
  function Read(s: Config, v: CVar): Option<Word> {
    match v
    case StackVar(_, _) => if v in s.vars then Some(s.vars[v]) else None
    case LocalVar(x) => if x < |s.locals| then Some(s.locals[x]) else None
    case GlobalVar(g) => if g < |s.globals| then Some(s.globals[g]) else None
  }

  function ReadAll(s: Config, vs: seq<CVar>): Option<seq<Word>> {
    if vs == [] then Some([])
    else
      match Read(s, vs[0])
      case None => None
      case Some(w) =>
        match ReadAll(s, vs[1..])
        case None => None
        case Some(ws) => Some([w] + ws)
  }

  /** Assignment converts to the variable's type: `u32` and `f32` hold 32 bits. */
  function Store(c: CModule, s: Config, v: CVar, w: Word): Config {
    match v
    case StackVar(_, ty) => s.(vars := s.vars[v := ConstWord(ty, w)])
    case LocalVar(x) =>
      if s.f < |c.funcs| && x < |s.locals| == |c.funcs[s.f].locals| then
        s.(locals := s.locals[x := ConstWord(c.funcs[s.f].locals[x], w)])
      else s.(status := Fault)
    case GlobalVar(g) =>
      if g < |s.globals| == |c.globals| then s.(globals := s.globals[g := ConstWord(c.globals[g], w)])
      else s.(status := Fault)
  }

  function Convert(types: seq<Type>, ws: seq<Word>): (r: seq<Word>)
    requires |types| == |ws|
    ensures |r| == |ws| && forall i :: 0 <= i < |r| ==> r[i] == ConstWord(types[i], ws[i])
  {
    seq(|ws|, i requires 0 <= i < |ws| => ConstWord(types[i], ws[i]))
  }

  // ----- Statements ----------------------------------------------------------------------------------

  function LabelIndex(code: seq<CStmt>, id: nat): (i: nat)
    ensures i <= |code|
    ensures i < |code| ==> code[i] == LabelDecl(id)
    ensures forall k :: 0 <= k < i ==> code[k] != LabelDecl(id)
  {
    if code == [] || code[0] == LabelDecl(id) then 0 else 1 + LabelIndex(code[1..], id)
  }

  /** Where a `goto` goes: just behind the label's declaration, in these braces or in those around. */
  function Find(k: Kont, id: nat): Option<Kont> {
    match k
    case Stop => None
    case At(code, _, below) =>
      var i := LabelIndex(code, id);
      if i < |code| then Some(At(code, i + 1, below)) else Find(below, id)
  }

  function ExecAssign(c: CModule, s: Config, dst: CVar, e: CExpr): Config {
    match e
    case Literal(w) => Store(c, s, dst, w)
    case Value(v) =>
      var w := Read(s, v);
      if w.None? then s.(status := Fault) else Store(c, s, dst, w.value)
    case Infix(op, lhs, rhs) =>
      var a, b := Read(s, lhs), Read(s, rhs);
      if a.None? || b.None? then s.(status := Fault)
      else
        var r := ApplyBin(op, a.value, b.value);
        if r.None? then s.(status := Trapped(Semantics.DivideByZero)) else Store(c, s, dst, r.value)
    case Choose(cond, yes, no) =>
      var k, a, b := Read(s, cond), Read(s, yes), Read(s, no);
      if k.None? || a.None? || b.None? then s.(status := Fault)
      else Store(c, s, dst, if k.value != 0 then a.value else b.value)
  }

  function Enter(s: Config, code: seq<CStmt>): Config {
    s.(kont := At(code, 0, s.kont))
  }

  /** `FUNC_PROLOGUE` bounds the number of active functions; arguments are converted and the other
      locals start at zero. */
  function ExecCall(c: CModule, depth: nat, s: Config, dst: Option<CVar>, f: nat, args: seq<CVar>): Config {
    var ws := ReadAll(s, args);
    if f >= |c.funcs| || ws.None? || |ws.value| != |c.funcs[f].sig.params| || |c.funcs[f].locals| < |ws.value| then
      s.(status := Fault)
    else if |s.callers| + 1 >= depth then s.(status := Exhausted)
    else
      var fn := c.funcs[f];
      Config(Running, f, At(fn.body, 0, Stop), map[],
             Convert(fn.sig.params, ws.value) + Zeros(|fn.locals| - |ws.value|),
             s.globals, s.callers + [Caller(s.f, s.kont, s.vars, s.locals, dst)])
  }

  /** One statement; `s.kont` is already past it. */
  function Execute(c: CModule, depth: nat, s: Config, stmt: CStmt): Config {
    match stmt
    case Assign(dst, e) => ExecAssign(c, s, dst, e)
    case Goto(id) =>
      var k := Find(s.kont, id);
      if k.None? then s.(status := Fault) else s.(kont := k.value)
    case LabelDecl(_) => s
    case IfStmt(cond, thn, els) =>
      var w := Read(s, cond);
      if w.None? then s.(status := Fault) else Enter(s, if w.value != 0 then thn else els)
    case Switch(key, cases, default) =>
      var w := Read(s, key);
      if w.None? then s.(status := Fault)
      else Enter(s, if w.value < |cases| then cases[w.value].code else default)
    case CallStmt(dst, f, args) => ExecCall(c, depth, s, dst, f, args)
    case TrapStmt => s.(status := Trapped(Semantics.UnreachableTrap))
  }

  /** The end of a function: its result goes into the caller's variable. */
  function Leave(c: CModule, s: Config): Config {
    if s.f >= |c.funcs| then s.(status := Fault)
    else
      var results := c.funcs[s.f].sig.results;
      var w := if results == [] then Some(0) else Read(s, StackVar(0, results[0]));
      if w.None? then s.(status := Fault)
      else if s.callers == [] then s.(status := Finished(if results == [] then [] else [w.value]))
      else
        var caller := s.callers[|s.callers| - 1];
        var s' := Config(Running, caller.f, caller.kont, caller.vars, caller.locals, s.globals,
                         s.callers[..|s.callers| - 1]);
        if caller.dst.None? then s' else Store(c, s', caller.dst.value, w.value)
  }

  function Step(c: CModule, depth: nat, s: Config): Config {
    if s.status != Running then s
    else
      match s.kont
      case Stop => Leave(c, s)
      case At(code, i, below) =>
        if i >= |code| then s.(kont := below) else Execute(c, depth, s.(kont := At(code, i + 1, below)), code[i])
  }

  function Run(c: CModule, depth: nat, s: Config, n: nat): Config
    decreases n
  {
    if n == 0 then s else Run(c, depth, Step(c, depth, s), n - 1)
  }

  lemma {:induction false} RunAdd(c: CModule, depth: nat, s: Config, a: nat, b: nat)
    ensures Run(c, depth, s, a + b) == Run(c, depth, Run(c, depth, s, a), b)
    decreases a
  {
    if a > 0 {
      RunAdd(c, depth, Step(c, depth, s), a - 1, b);
    }
  }

  lemma {:induction false} RunHalted(c: CModule, depth: nat, s: Config, n: nat)
    requires s.status != Running
    ensures Run(c, depth, s, n) == s
    decreases n
  {
    if n > 0 {
      RunHalted(c, depth, s, n - 1);
    }
  }
}
