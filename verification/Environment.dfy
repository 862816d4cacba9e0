/** Loading a module into an environment that others share: the reader appends to the environment's
    vectors as it goes, puts writes to tables and memories off to the end, and cuts everything back to a
    mark when it fails. */
module Environments {
  import opened Syntax
  import opened Bytecode
  import opened Elaborate
  import Layout
  import opened Linking
  import opened InterpReader

  datatype Env = Env(
    modules: seq<string>,
    registered: map<string, nat>,
    sigs: seq<Sig>,
    funcs: seq<nat>,
    memories: seq<seq<Byte>>,
    tables: seq<seq<nat>>,
    globals: seq<Word>,
    istream: seq<Byte>)

  /** What the reader's callbacks do to the environment. Segments may go to imported tables and memories. */
  datatype Step =
    | NewSig(sig: Sig)
    | NewFunc(func: nat)
    | NewMemory(size: nat)
    | NewTable(size: nat)
    | NewGlobal(value: Word)
    | Elem(table: nat, at: nat, funcIndexes: seq<nat>)
    | Data(memory: nat, at: nat, bytes: seq<Byte>)
    | Error

  /** A write that waits for `EndModule`. */
  datatype Info = ElemInfo(table: nat, at: nat, func: nat) | DataInfo(memory: nat, at: nat, bytes: seq<Byte>)

  function Overwrite<T>(s: seq<T>, at: nat, data: seq<T>): (r: seq<T>)
    requires at + |data| <= |s|
    ensures |r| == |s|
  {
    s[..at] + data + s[at + |data|..]
  }

  predicate InfoOk(e: Env, info: Info) {
    match info
    case ElemInfo(t, at, _) => t < |e.tables| && at < |e.tables[t]|
    case DataInfo(m, at, bytes) => m < |e.memories| && at + |bytes| <= |e.memories[m]|
  }

  function ApplyInfo(e: Env, info: Info): Env
    requires InfoOk(e, info)
  {
    match info
    case ElemInfo(t, at, f) => e.(tables := e.tables[t := Overwrite(e.tables[t], at, [f])])
    case DataInfo(m, at, bytes) => e.(memories := e.memories[m := Overwrite(e.memories[m], at, bytes)])
  }

  function ElemInfos(t: nat, at: nat, fs: seq<nat>): seq<Info>
    decreases |fs|
  {
    if fs == [] then [] else [ElemInfo(t, at, fs[0])] + ElemInfos(t, at + 1, fs[1..])
  }

  /** The writes that a step stands for. */
  function InfosOf(s: Step): seq<Info> {
    match s
    case Elem(t, at, fs) => ElemInfos(t, at, fs)
    case Data(m, at, bytes) => if bytes == [] then [] else [DataInfo(m, at, bytes)]
    case _ => []
  }

  /** Whether a callback succeeds: segments are checked against the sizes as they are then. */
  predicate StepOk(e: Env, s: Step) {
    match s
    case Elem(t, at, fs) => t < |e.tables| && at + |fs| <= |e.tables[t]|
    case Data(m, at, bytes) => m < |e.memories| && at + |bytes| <= |e.memories[m]|
    case Error => false
    case _ => true
  }

  /** A callback's own effect. */
  function Now(e: Env, s: Step): Env
    requires StepOk(e, s)
  {
    match s
    case NewSig(sig) => e.(sigs := e.sigs + [sig])
    case NewFunc(f) => e.(funcs := e.funcs + [f])
    case NewMemory(size) => e.(memories := e.memories + [seq(size, _ => 0)])
    case NewTable(size) => e.(tables := e.tables + [seq(size, _ => INVALID_FUNC)])
    case NewGlobal(v) => e.(globals := e.globals + [v])
    case _ => e
  }

  const INVALID_FUNC: nat := 0xffff_ffff

  // ----- The meaning: all at once or not at all ---------------------------------------------------------------------

  predicate InfosOk(e: Env, infos: seq<Info>) {
    forall i :: 0 <= i < |infos| ==> InfoOk(e, infos[i])
  }

  /** Writes in order. */
  function ApplyAll(e: Env, infos: seq<Info>): Env
    requires InfosOk(e, infos)
    decreases |infos|
  {
    if infos == [] then e
    else
      ApplySizes(e, infos[0], infos[1..]);
      ApplyAll(ApplyInfo(e, infos[0]), infos[1..])
  }

  lemma ApplySizes(e: Env, info: Info, rest: seq<Info>)
    requires InfoOk(e, info) && InfosOk(e, rest)
    ensures InfosOk(ApplyInfo(e, info), rest)
  {
    forall i | 0 <= i < |rest|
      ensures InfoOk(ApplyInfo(e, info), rest[i])
    {
      assert InfoOk(e, rest[i]);
    }
  }

  lemma {:induction false} ElemInfosOk(e: Env, t: nat, at: nat, fs: seq<nat>)
    requires t < |e.tables| && at + |fs| <= |e.tables[t]|
    ensures InfosOk(e, ElemInfos(t, at, fs))
    decreases |fs|
  {
    if fs != [] {
      ElemInfosOk(e, t, at + 1, fs[1..]);
    }
  }

  lemma StepInfosOk(e: Env, s: Step)
    requires StepOk(e, s)
    ensures InfosOk(e, InfosOf(s))
  {
    if s.Elem? {
      ElemInfosOk(e, s.table, s.at, s.funcIndexes);
    }
  }

  /** Every step at once, writes included; `None` if one of them fails. */
  function Load(e: Env, steps: seq<Step>): Option<Env>
    decreases |steps|
  {
    if steps == [] then Some(e)
    else if !StepOk(e, steps[0]) then None
    else
      StepInfosOk(e, steps[0]);
      KeepsSizes(e, steps[0], InfosOf(steps[0]));
      Load(ApplyAll(Now(e, steps[0]), InfosOf(steps[0])), steps[1..])
  }

  /** Steps only add. */
  lemma KeepsSizes(e: Env, s: Step, infos: seq<Info>)
    requires StepOk(e, s) && InfosOk(e, infos)
    ensures InfosOk(Now(e, s), infos)
  {
    forall i | 0 <= i < |infos|
      ensures InfoOk(Now(e, s), infos[i])
    {
      assert InfoOk(e, infos[i]);
    }
  }

  // ----- Putting writes off ------------------------------------------------------------------------------------------

  /** Checks only look at sizes, and those do not depend on pending writes. */
  lemma {:induction false} SameChecks(e: Env, infos: seq<Info>, s: Step)
    requires InfosOk(e, infos)
    ensures StepOk(ApplyAll(e, infos), s) == StepOk(e, s)
    ensures ApplyAll(e, infos).istream == e.istream
    decreases |infos|
  {
    if infos != [] {
      ApplySizes(e, infos[0], infos[1..]);
      SameChecks(ApplyInfo(e, infos[0]), infos[1..], s);
    }
  }

  lemma SwapOne(e: Env, info: Info, s: Step)
    requires StepOk(e, s) && InfoOk(e, info)
    ensures InfoOk(Now(e, s), info) && StepOk(ApplyInfo(e, info), s)
    ensures ApplyInfo(Now(e, s), info) == Now(ApplyInfo(e, info), s)
  {
    var a, b := ApplyInfo(Now(e, s), info), Now(ApplyInfo(e, info), s);
    match s
    case NewMemory(size) => assert a.memories == b.memories;
    case NewTable(size) => assert a.tables == b.tables;
    case _ =>
  }

  /** A pending write and a later step do not get into each other's way. */
  lemma {:induction false} Swap(e: Env, infos: seq<Info>, s: Step)
    requires StepOk(e, s) && InfosOk(e, infos)
    ensures InfosOk(Now(e, s), infos) && StepOk(ApplyAll(e, infos), s)
    ensures ApplyAll(Now(e, s), infos) == Now(ApplyAll(e, infos), s)
    decreases |infos|
  {
    hide InfoOk, ApplyInfo, Now, StepOk;
    KeepsSizes(e, s, infos);
    SameChecks(e, infos, s);
    if infos != [] {
      SwapOne(e, infos[0], s);
      ApplySizes(e, infos[0], infos[1..]);
      Swap(ApplyInfo(e, infos[0]), infos[1..], s);
    }
  }

  lemma {:induction false} ApplyAppend(e: Env, a: seq<Info>, b: seq<Info>)
    requires InfosOk(e, a) && InfosOk(e, b)
    ensures InfosOk(e, a + b) && InfosOk(ApplyAll(e, a), b)
    ensures ApplyAll(e, a + b) == ApplyAll(ApplyAll(e, a), b)
    decreases |a|
  {
    hide InfoOk, ApplyInfo;
    if a == [] {
      assert a + b == b;
    } else {
      assert (a + b)[1..] == a[1..] + b;
      ApplySizes(e, a[0], a[1..]);
      ApplySizes(e, a[0], b);
      ApplyAppend(ApplyInfo(e, a[0]), a[1..], b);
    }
  }

  /** One step of the reader, with its writes put off behind those that already wait. */
  lemma Deferred(e: Env, infos: seq<Info>, s: Step)
    requires InfosOk(e, infos) && StepOk(e, s)
    ensures var e', infos' := Now(e, s), infos + InfosOf(s);
            && InfosOk(e', infos') && StepOk(ApplyAll(e, infos), s)
            && InfosOk(Now(ApplyAll(e, infos), s), InfosOf(s))
            && ApplyAll(e', infos') == ApplyAll(Now(ApplyAll(e, infos), s), InfosOf(s))
  {
    hide InfoOk, ApplyInfo, Now, StepOk, ApplyAll;
    Swap(e, infos, s);
    StepInfosOk(e, s);
    KeepsSizes(e, s, InfosOf(s));
    ApplyAppend(Now(e, s), infos, InfosOf(s));
  }

  // ----- The environment -------------------------------------------------------------------------------------

  /** How much of `after` was there before. */
  predicate Extends(before: Env, after: Env) {
    && before.modules <= after.modules && before.sigs <= after.sigs && before.funcs <= after.funcs
    && before.memories <= after.memories && before.tables <= after.tables && before.globals <= after.globals
    && before.registered == after.registered
  }

  /** A module's sections around its code: segments come before it and after it. */
  function LoadModule(e: Env, sections: seq<Step>, m: Module, rest: seq<Step>): Option<Env> {
    var first := Load(e, sections);
    if first.None? || ElabFuncs(m, |m.funcs|).None? then None else Load(first.value, rest)
  }

  lemma StepExtends(before: Env, e: Env, s: Step)
    requires Extends(before, e) && StepOk(e, s)
    ensures Extends(before, Now(e, s))
  {
  }

  datatype MarkPoint = MarkPoint(modules: nat, sigs: nat, funcs: nat, memories: nat, tables: nat, globals: nat,
                                 istream: nat)

  class Environment {
    var modules: seq<string>
    var registered: map<string, nat>
    var sigs: seq<Sig>
    var funcs: seq<nat>
    var memories: seq<seq<Byte>>
    var tables: seq<seq<nat>>
    var globals: seq<Word>
    var istream: seq<Byte>

    ghost function State(): Env
      reads this
    {
      Env(modules, registered, sigs, funcs, memories, tables, globals, istream)
    }

    /** Registered names belong to modules that exist. */
    ghost predicate Valid()
      reads this
    {
      forall n :: n in registered ==> registered[n] < |modules|
    }

    constructor ()
      ensures Valid() && State() == Env([], map[], [], [], [], [], [], [])
    {
      modules, registered, sigs, funcs := [], map[], [], [];
      memories, tables, globals, istream := [], [], [], [];
    }

    method Mark() returns (mark: MarkPoint)
      ensures mark == MarkPoint(|modules|, |sigs|, |funcs|, |memories|, |tables|, |globals|, |istream|)
    {
      mark := MarkPoint(|modules|, |sigs|, |funcs|, |memories|, |tables|, |globals|, |istream|);
    }

    /** The loop over the registered names. */
    method EraseNames(size: nat)
      modifies this`registered
      ensures registered == map n | n in old(registered) && old(registered)[n] < size :: old(registered)[n]
    {
      var names := registered.Keys;
      while names != {}
        invariant names <= old(registered).Keys
        invariant forall n :: n in registered <==> n in old(registered) && (n in names || old(registered)[n] < size)
        invariant forall n :: n in registered ==> registered[n] == old(registered)[n]
        decreases |names|
      {
        var n :| n in names;
        names := names - {n};
        if registered[n] >= size {
          registered := registered - {n};
        }
      }
    }

    /** Everything behind the mark goes, also names that were registered for modules behind it. */
    method ResetToMarkPoint(mark: MarkPoint)
      requires mark.modules <= |modules| && mark.sigs <= |sigs| && mark.funcs <= |funcs| && mark.memories <= |memories|
      requires mark.tables <= |tables| && mark.globals <= |globals| && mark.istream <= |istream|
      modifies this
      ensures registered == map n | n in old(registered) && old(registered)[n] < mark.modules :: old(registered)[n]
      ensures State() == Env(old(modules)[..mark.modules], registered, old(sigs)[..mark.sigs], old(funcs)[..mark.funcs],
                             old(memories)[..mark.memories], old(tables)[..mark.tables], old(globals)[..mark.globals],
                             old(istream)[..mark.istream])
      ensures Valid()
    {
      EraseNames(mark.modules);
      modules, sigs, funcs := modules[..mark.modules], sigs[..mark.sigs], funcs[..mark.funcs];
      memories, tables := memories[..mark.memories], tables[..mark.tables];
      globals, istream := globals[..mark.globals], istream[..mark.istream];
    }

    /** One callback; its writes are put off. */
    method RunStep(s: Step) returns (ok: bool)
      modifies this
      ensures ok == StepOk(old(State()), s)
      ensures State() == if ok then Now(old(State()), s) else old(State())
    {
      match s
      case NewSig(sig) =>
        sigs := sigs + [sig];
        ok := true;
      case NewFunc(f) =>
        funcs := funcs + [f];
        ok := true;
      case NewMemory(size) =>
        memories := memories + [seq(size, _ => 0)];
        ok := true;
      case NewTable(size) =>
        tables := tables + [seq(size, _ => INVALID_FUNC)];
        ok := true;
      case NewGlobal(v) =>
        globals := globals + [v];
        ok := true;
      case Elem(t, at, fs) => ok := t < |tables| && at + |fs| <= |tables[t]|;
      case Data(m, at, bytes) => ok := m < |memories| && at + |bytes| <= |memories[m]|;
      case Error => ok := false;
    }

    /** The pending writes, in order. */
    method EndModule(infos: seq<Info>)
      requires InfosOk(State(), infos)
      modifies this
      ensures State() == ApplyAll(old(State()), infos)
    {
      hide ApplyAll, InfoOk;
      ghost var e := State();
      ApplyNone(e);
      assert infos[|infos|..] == [] && infos[0..] == infos;
      for i := 0 to |infos|
        invariant InfosOk(State(), infos[i..]) && ApplyAll(State(), infos[i..]) == ApplyAll(e, infos)
      {
        ghost var before := State();
        assert infos[i..][0] == infos[i] && infos[i..][1..] == infos[i + 1..];
        ApplyStep(before, infos[i..]);
        match infos[i] {
          case ElemInfo(t, at, f) => tables := tables[t := Overwrite(tables[t], at, [f])];
          case DataInfo(m, at, bytes) => memories := memories[m := Overwrite(memories[m], at, bytes)];
        }
        assert State() == ApplyInfo(before, infos[i]);
      }
      ApplyNone(State());
    }

    static lemma ApplyNone(e: Env)
      ensures ApplyAll(e, []) == e
    {
    }

    static lemma ApplyStep(e: Env, infos: seq<Info>)
      requires infos != [] && InfosOk(e, infos)
      ensures InfoOk(e, infos[0]) && InfosOk(ApplyInfo(e, infos[0]), infos[1..])
      ensures ApplyAll(e, infos) == ApplyAll(ApplyInfo(e, infos[0]), infos[1..])
    {
      ApplySizes(e, infos[0], infos[1..]);
    }

    /** Callback after callback, with the writes of all of them still to come. */
    method RunSteps(steps: seq<Step>, infos: seq<Info>, ghost before: Env) returns (ok: bool, pending: seq<Info>)
      requires InfosOk(State(), infos) && Extends(before, State())
      modifies this
      ensures Extends(before, State()) && modules == old(modules) && istream == old(istream)
      ensures ok == Load(ApplyAll(old(State()), infos), steps).Some?
      ensures ok ==> InfosOk(State(), pending)
                     && ApplyAll(State(), pending) == Load(ApplyAll(old(State()), infos), steps).value
    {
      hide Load, StepOk, Now, ApplyAll, InfosOf, InfoOk;
      ghost var whole := Load(ApplyAll(State(), infos), steps);
      pending := infos;
      assert steps[0..] == steps;
      for i := 0 to |steps|
        invariant Extends(before, State()) && modules == old(modules) && istream == old(istream)
        invariant InfosOk(State(), pending) && Load(ApplyAll(State(), pending), steps[i..]) == whole
      {
        ghost var e := State();
        assert steps[i..][0] == steps[i] && steps[i..][1..] == steps[i + 1..];
        LoadStep(ApplyAll(e, pending), steps[i..]);
        SameChecks(e, pending, steps[i]);
        ok := RunStep(steps[i]);
        if !ok {
          return;
        }
        StepExtends(before, e, steps[i]);
        StepShape(e, steps[i]);
        Deferred(e, pending, steps[i]);
        pending := pending + InfosOf(steps[i]);
      }
      assert steps[|steps|..] == [];
      LoadNone(ApplyAll(State(), pending));
      ok := true;
    }

    /** The callbacks of all sections, up to `EndModule` or the first that fails. */
    method ReadBinary(reader: BinaryReaderInterp, sections: seq<Step>, rest: seq<Step>, ghost before: Env)
      returns (ok: bool)
      requires Extends(before, State()) && reader.FunctionsSafe() && |reader.funcOffsets| == |reader.mod.funcs|
      requires Progress(reader.istream, reader.istream, reader.funcOffsets, reader.funcFixups, [])
      modifies this, reader
      ensures Extends(before, State()) || ok
      ensures ok == LoadModule(old(State()), sections, reader.mod, rest).Some?
      ensures ok ==> State() == LoadModule(old(State()), sections, reader.mod, rest).value
      ensures modules == old(modules) && registered == old(registered) && reader.before <= reader.istream
      ensures ok ==>
                var base, cs := old(reader.istream), ElabFuncs(reader.mod, |reader.mod.funcs|).value;
                |base| + |Link(cs, |base|)| < Layout.INVALID ==>
                  reader.istream == base + Link(cs, |base|) && reader.funcOffsets == FuncOffsets(cs, |base|)
    {
      hide Load, ApplyAll, InfosOk, ElabFuncs, Link, FuncOffsets, Progress;
      ghost var start := State();
      var infos: seq<Info> := [];
      NothingPending(start);
      ok, infos := RunSteps(sections, infos, before);
      if !ok {
        return;
      }
      ok := reader.ReadModule();
      if !ok {
        return;
      }
      ok, infos := RunSteps(rest, infos, before);
      if ok {
        LoadKeeps(start, sections);
        LoadKeeps(Load(start, sections).value, rest);
        EndModule(infos);
      }
    }

    /** `ReadBinaryInterp`: the reader takes the stream and gives it back whatever happens. A load that fails
        leaves nothing behind, in the stream either; one that succeeds has the effect of its steps one after
        the other and of appending the linked code. */
    method ReadBinaryInterp(sections: seq<Step>, m: Module, rest: seq<Step>) returns (ok: bool, offsets: seq<nat>)
      requires Valid()
      modifies this
      ensures Valid()
      ensures var e := old(State()).(modules := old(modules) + [""], istream := []);
              var loaded := LoadModule(e, sections, m, rest);
              && ok == loaded.Some?
              && State() == if ok then loaded.value.(istream := istream) else old(State())
      ensures ok ==>
                && old(istream) <= istream
                && var cs := ElabFuncs(m, |m.funcs|).value;
                   |old(istream)| + |Link(cs, |old(istream)|)| < Layout.INVALID ==>
                     istream == old(istream) + Link(cs, |old(istream)|) && offsets == FuncOffsets(cs, |old(istream)|)
    {
      hide LoadModule, ElabFuncs, Link, FuncOffsets, Progress;
      ghost var before := State();
      var mark := Mark();
      var reader := new BinaryReaderInterp(m, istream);
      istream := [];
      modules := modules + [""];
      ok := ReadBinary(reader, sections, rest, before);
      offsets := reader.funcOffsets;
      istream := reader.istream;
      if !ok {
        ResetToMarkPoint(mark);
        assert registered == before.registered;
      }
    }

    static lemma NothingPending(e: Env)
      ensures InfosOk(e, []) && ApplyAll(e, []) == e
    {
    }

    static lemma LoadNone(e: Env)
      ensures Load(e, []) == Some(e)
    {
    }

    static lemma LoadStep(e: Env, steps: seq<Step>)
      requires steps != []
      ensures !StepOk(e, steps[0]) ==> Load(e, steps) == None
      ensures StepOk(e, steps[0]) ==>
                && InfosOk(Now(e, steps[0]), InfosOf(steps[0]))
                && Load(e, steps) == Load(ApplyAll(Now(e, steps[0]), InfosOf(steps[0])), steps[1..])
    {
      if StepOk(e, steps[0]) {
        StepInfosOk(e, steps[0]);
        KeepsSizes(e, steps[0], InfosOf(steps[0]));
      }
    }

    static lemma StepShape(e: Env, s: Step)
      requires StepOk(e, s)
      ensures var e' := Now(e, s); e'.modules == e.modules && e'.registered == e.registered && e'.istream == e.istream
    {
    }

    static lemma {:induction false} ApplyKeeps(e: Env, infos: seq<Info>)
      requires InfosOk(e, infos)
      ensures var e' := ApplyAll(e, infos);
              e'.modules == e.modules && e'.registered == e.registered && e'.istream == e.istream
      decreases |infos|
    {
      if infos != [] {
        ApplyStep(e, infos);
        ApplyKeeps(ApplyInfo(e, infos[0]), infos[1..]);
      }
    }

    static lemma {:induction false} LoadKeeps(e: Env, steps: seq<Step>)
      requires Load(e, steps).Some?
      ensures var e' := Load(e, steps).value; e'.modules == e.modules && e'.registered == e.registered
      decreases |steps|
    {
      hide ApplyAll, StepOk, Now, InfosOf;
      if steps != [] {
        LoadStep(e, steps);
        StepShape(e, steps[0]);
        ApplyKeeps(Now(e, steps[0]), InfosOf(steps[0]));
        LoadKeeps(ApplyAll(Now(e, steps[0]), InfosOf(steps[0])), steps[1..]);
      }
    }
  }
}
