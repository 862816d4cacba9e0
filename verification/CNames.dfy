/** Names in the written C: import symbols from which module, field and type can be recovered, and
    fresh legal identifiers for everything else. */
module CNames {
  import opened Syntax

  // ----- Mangling ----------------------------------------------------------------------------------------

  predicate IsAlpha(c: char) {
    'a' <= c <= 'z' || 'A' <= c <= 'Z'
  }

  predicate IsDigit(c: char) {
    '0' <= c <= '9'
  }

  predicate IsAlnum(c: char) {
    IsAlpha(c) || IsDigit(c)
  }

  /** A name is a string of bytes. */
  predicate IsBytes(s: string) {
    forall i :: 0 <= i < |s| ==> s[i] as int < 256
  }

  function Hex(n: nat): (c: char)
    requires n < 16
    ensures c != '_' && c != 'Z'
  {
    if n < 10 then (48 + n) as char else (55 + n) as char
  }

  function MangleChar(c: char): (r: string)
    requires c as int < 256
    ensures (r == [c] && c != 'Z') || (|r| == 3 && r[0] == 'Z' && r[1] != '_')
  {
    if (IsAlnum(c) && c != 'Z') || c == '_' then [c]
    else ['Z', Hex(c as int / 16), Hex(c as int % 16)]
  }

  function MangleChars(name: string): string
    requires IsBytes(name)
  {
    if name == "" then "" else MangleChar(name[0]) + MangleChars(name[1..])
  }

  function Mangled(name: string): string
    requires IsBytes(name)
  {
    "Z_" + MangleChars(name)
  }

  lemma {:induction false} MangleSnoc(name: string, c: char)
    requires IsBytes(name) && c as int < 256
    ensures IsBytes(name + [c]) && MangleChars(name + [c]) == MangleChars(name) + MangleChar(c)
    decreases |name|
  {
    if name == "" {
      assert name + [c] == [c];
    } else {
      assert (name + [c])[1..] == name[1..] + [c];
      MangleSnoc(name[1..], c);
    }
  }

  method MangleName(name: string) returns (result: string)
    requires IsBytes(name)
    ensures result == Mangled(name)
  {
    result := "Z_";
    for i := 0 to |name|
      invariant result == "Z_" + MangleChars(name[..i])
    {
      var c := name[i];
      MangleSnoc(name[..i], c);
      assert name[..i + 1] == name[..i] + [c];
      if (IsAlnum(c) && c != 'Z') || c == '_' {
        result := result + [c];
      } else {
        result := result + ['Z'];
        result := result + [Hex(c as int / 16), Hex(c as int % 16)];
      }
    }
    assert name[..|name|] == name;
  }

  /** Several mangled names in a row. */
  function MangleAll(names: seq<string>): string
    requires forall i :: 0 <= i < |names| ==> IsBytes(names[i])
  {
    if names == [] then "" else Mangled(names[0]) + MangleAll(names[1..])
  }

  /** What can follow a mangled name: nothing, or the next one. */
  predicate Delimited(rest: string) {
    rest == "" || (|rest| >= 2 && rest[0] == 'Z' && rest[1] == '_')
  }

  lemma CharInjective(c: char, d: char, x: string, y: string)
    requires c as int < 256 && d as int < 256
    requires MangleChar(c) + x == MangleChar(d) + y
    ensures c == d && x == y
  {
    var l, r := MangleChar(c) + x, MangleChar(d) + y;
    assert l[0] == r[0];
    if |MangleChar(c)| == 3 {
      assert l[1] == r[1] && l[2] == r[2];
      assert c as int == c as int / 16 * 16 + c as int % 16 && d as int == d as int / 16 * 16 + d as int % 16;
    }
    assert x == l[|MangleChar(c)|..] && y == r[|MangleChar(d)|..];
  }

  lemma MangleCons(a: string, x: string)
    requires IsBytes(a) && a != ""
    ensures MangleChars(a) + x == MangleChar(a[0]) + (MangleChars(a[1..]) + x)
  {
  }

  lemma {:induction false} CharsInjective(a: string, b: string, x: string, y: string)
    requires IsBytes(a) && IsBytes(b) && Delimited(x) && Delimited(y)
    requires MangleChars(a) + x == MangleChars(b) + y
    ensures a == b && x == y
    decreases |a| + |b|
  {
    hide MangleChar;
    if a != "" && b != "" {
      MangleCons(a, x);
      MangleCons(b, y);
      CharInjective(a[0], b[0], MangleChars(a[1..]) + x, MangleChars(b[1..]) + y);
      CharsInjective(a[1..], b[1..], x, y);
      assert a == [a[0]] + a[1..] && b == [b[0]] + b[1..];
    } else if a != "" {
      assert MangleChars(b) + y == y;
      NotDelimited(a, x);
    } else if b != "" {
      assert MangleChars(a) + x == x;
      NotDelimited(b, y);
    } else {
      assert "" + x == x && "" + y == y;
    }
  }

  lemma NotDelimited(a: string, x: string)
    requires IsBytes(a) && a != ""
    ensures !Delimited(MangleChars(a) + x)
  {
    var m := MangleChars(a) + x;
    assert m[0] == MangleChar(a[0])[0];
    if |MangleChar(a[0])| == 3 {
      assert m[1] == MangleChar(a[0])[1];
    }
  }

  lemma AllDelimited(names: seq<string>)
    requires forall i :: 0 <= i < |names| ==> IsBytes(names[i])
    ensures Delimited(MangleAll(names))
  {
  }

  /** A row of mangled names determines the names, and how many there are. */
  lemma {:induction false} MangleAllInjective(a: seq<string>, b: seq<string>)
    requires forall i :: 0 <= i < |a| ==> IsBytes(a[i])
    requires forall i :: 0 <= i < |b| ==> IsBytes(b[i])
    requires MangleAll(a) == MangleAll(b)
    ensures a == b
    decreases |a|
  {
    hide MangleChars;
    if a != [] && b != [] {
      var x, y := MangleAll(a[1..]), MangleAll(b[1..]);
      assert MangleAll(a)[2..] == MangleChars(a[0]) + x && MangleAll(b)[2..] == MangleChars(b[0]) + y;
      AllDelimited(a[1..]);
      AllDelimited(b[1..]);
      CharsInjective(a[0], b[0], x, y);
      MangleAllInjective(a[1..], b[1..]);
      assert a == [a[0]] + a[1..] && b == [b[0]] + b[1..];
    }
  }

  // ----- Import symbols ------------------------------------------------------------------------------------

  function MangleType(ty: Type): char {
    match ty
    case I32 => 'i'
    case I64 => 'j'
    case F32 => 'f'
    case _ => 'd'
  }

  function MangleLetters(types: seq<Type>): (r: string)
    ensures |r| == |types| && forall i :: 0 <= i < |r| ==> r[i] == MangleType(types[i])
  {
    seq(|types|, i requires 0 <= i < |types| => MangleType(types[i]))
  }

  function MangleTypes(types: seq<Type>): string {
    if types == [] then "v" else MangleLetters(types)
  }

  function SigName(sig: Sig): (r: string)
    ensures IsBytes(r) && |r| >= 2
  {
    MangleTypes(sig.results) + MangleTypes(sig.params)
  }

  lemma TypesInjective(a: seq<Type>, b: seq<Type>)
    requires Concrete(a) && Concrete(b) && MangleTypes(a) == MangleTypes(b)
    ensures a == b
  {
    var x, y := MangleTypes(a), MangleTypes(b);
    assert if a == [] then x[0] == 'v' else x[0] == MangleType(a[0]) != 'v';
    assert if b == [] then y[0] == 'v' else y[0] == MangleType(b[0]) != 'v';
    if a != [] {
      forall i | 0 <= i < |a| ensures a[i] == b[i] {
        assert x[i] == MangleType(a[i]) && y[i] == MangleType(b[i]);
      }
    }
  }

  /** With at most one result the results are one letter, so the two halves come apart again. */
  lemma SigInjective(a: Sig, b: Sig)
    requires Concrete(a.params) && Concrete(a.results) && Concrete(b.params) && Concrete(b.results)
    requires |a.results| <= 1 && |b.results| <= 1 && SigName(a) == SigName(b)
    ensures a == b
  {
    var x, y := SigName(a), SigName(b);
    assert x[..1] == MangleTypes(a.results) && x[1..] == MangleTypes(a.params);
    assert y[..1] == MangleTypes(b.results) && y[1..] == MangleTypes(b.params);
    TypesInjective(a.results, b.results);
    TypesInjective(a.params, b.params);
  }

  /** With more results they do not. */
  lemma SigAmbiguous()
    ensures SigName(Sig([I32], [I32, I32])) == SigName(Sig([I32, I32], [I32]))
  {
    assert MangleTypes([I32]) == "i" && MangleTypes([I32, I32]) == "ii";
  }

  datatype Import =
    | FuncImport(mod: string, field: string, sig: Sig)
    | GlobalImport(mod: string, field: string, ty: Type)
    | MemoryImport(mod: string, field: string)
    | TableImport(mod: string, field: string)

  predicate ImportOk(i: Import) {
    && IsBytes(i.mod) && IsBytes(i.field)
    && (i.FuncImport? ==> Concrete(i.sig.params) && Concrete(i.sig.results) && |i.sig.results| <= 1)
    && (i.GlobalImport? ==> i.ty != Any)
  }

  /** The parts that are mangled one after the other. */
  function Parts(i: Import): (r: seq<string>)
    requires ImportOk(i)
    ensures forall k :: 0 <= k < |r| ==> IsBytes(r[k])
  {
    match i
    case FuncImport(m, f, sig) => [m, f, SigName(sig)]
    case GlobalImport(m, f, ty) => [m, f, [MangleType(ty)]]
    case MemoryImport(m, f) => [m, f]
    case TableImport(m, f) => [m, f]
  }

  function Symbol(i: Import): string
    requires ImportOk(i)
  {
    MangleAll(Parts(i))
  }

  predicate IsStore(i: Import) {
    i.MemoryImport? || i.TableImport?
  }

  /** Import symbols coincide only for the same import - or for a memory and a table of one name. */
  lemma SymbolInjective(a: Import, b: Import)
    requires ImportOk(a) && ImportOk(b)
    ensures Symbol(a) == Symbol(b) <==>
            a == b || (IsStore(a) && IsStore(b) && a.mod == b.mod && a.field == b.field)
  {
    if Symbol(a) == Symbol(b) {
      var x, y := Parts(a), Parts(b);
      MangleAllInjective(x, y);
      assert x[0] == a.mod && y[0] == b.mod && x[1] == a.field && y[1] == b.field;
      if |x| == 3 {
        assert |x[2]| == |y[2]|;
        if a.FuncImport? {
          SigInjective(a.sig, b.sig);
        } else {
          assert x[2][0] == MangleType(a.ty) && y[2][0] == MangleType(b.ty);
        }
      }
    }
  }

  // ----- Fresh names -------------------------------------------------------------------------------------------

  predicate IsIdentifier(s: string) {
    s != "" && (IsAlpha(s[0]) || s[0] == '_') && forall i :: 0 <= i < |s| ==> IsAlnum(s[i]) || s[i] == '_'
  }

  function Legalized(name: string): (r: string)
    ensures IsIdentifier(r)
    ensures IsIdentifier(name) ==> r == name
  {
    if name == "" then "_"
    else
      [if IsAlpha(name[0]) then name[0] else '_']
      + seq(|name| - 1, i requires 0 <= i < |name| - 1 => if IsAlnum(name[i + 1]) then name[i + 1] else '_')
  }

  method LegalizeName(name: string) returns (result: string)
    ensures result == Legalized(name)
  {
    if name == "" {
      return "_";
    }
    result := [if IsAlpha(name[0]) then name[0] else '_'];
    for i := 1 to |name|
      invariant |result| == i && result == Legalized(name)[..i]
    {
      result := result + [if IsAlnum(name[i]) then name[i] else '_'];
    }
  }

  /** `std::to_string`. */
  function Decimal(n: nat): (r: string)
    ensures r != "" && forall i :: 0 <= i < |r| ==> IsDigit(r[i])
  {
    (if n < 10 then "" else Decimal(n / 10)) + [(48 + n % 10) as char]
  }

  lemma {:induction false} DecimalInjective(a: nat, b: nat)
    requires Decimal(a) == Decimal(b)
    ensures a == b
    decreases a + b
  {
    var x, y := Decimal(a), Decimal(b);
    assert x[|x| - 1] == (48 + a % 10) as char && y[|y| - 1] == (48 + b % 10) as char;
    assert x[..|x| - 1] == (if a < 10 then "" else Decimal(a / 10));
    assert y[..|y| - 1] == (if b < 10 then "" else Decimal(b / 10));
    if a >= 10 && b >= 10 {
      DecimalInjective(a / 10, b / 10);
    }
  }

  function Numbered(base: string, n: nat): string {
    base + "_" + Decimal(n)
  }

  lemma NumberedInjective(base: string, a: nat, b: nat)
    requires Numbered(base, a) == Numbered(base, b)
    ensures a == b
  {
    var x, y := Numbered(base, a), Numbered(base, b);
    assert x[|base| + 1..] == Decimal(a) && y[|base| + 1..] == Decimal(b);
    DecimalInjective(a, b);
  }

  lemma NumberedIdentifier(base: string, n: nat)
    requires IsIdentifier(base)
    ensures IsIdentifier(Numbered(base, n))
  {
    var s := Numbered(base, n);
    forall i | 0 <= i < |s| ensures IsAlnum(s[i]) || s[i] == '_' {
      if i < |base| {
        assert s[i] == base[i];
      } else if i > |base| {
        assert s[i] == Decimal(n)[i - |base| - 1];
      }
    }
  }

  function FirstNumbered(base: string, n: nat): set<string> {
    set k | 0 <= k < n :: Numbered(base, k)
  }

  /** Numbered names are different, so only as many as the set is large can all be taken. */
  lemma {:induction false} NumberedCount(base: string, n: nat)
    ensures |FirstNumbered(base, n)| == n
    decreases n
  {
    if n == 0 {
      assert FirstNumbered(base, 0) == {};
    } else {
      NumberedCount(base, n - 1);
      assert FirstNumbered(base, n) == FirstNumbered(base, n - 1) + {Numbered(base, n - 1)};
      if Numbered(base, n - 1) in FirstNumbered(base, n - 1) {
        var k :| 0 <= k < n - 1 && Numbered(base, k) == Numbered(base, n - 1);
        NumberedInjective(base, k, n - 1);
      }
    }
  }

  lemma SubsetSize(a: set<string>, b: set<string>)
    requires a <= b
    ensures |a| <= |b|
  {
    assert b == a + (b - a);
  }

  /** `DefineName`: the retry loop ends with a legal name that was not in use. */
  method DefineName(syms: set<string>, name: string) returns (unique: string)
    ensures unique !in syms && IsIdentifier(unique)
    ensures Legalized(name) !in syms ==> unique == Legalized(name)
  {
    unique := LegalizeName(name);
    if unique in syms {
      var base := unique;
      var count := 0;
      while unique in syms
        invariant IsIdentifier(base) && IsIdentifier(unique)
        invariant count > 0 ==> unique == Numbered(base, count - 1) && FirstNumbered(base, count - 1) <= syms
        decreases |syms| + 1 - count
      {
        assert FirstNumbered(base, count) <= syms;
        NumberedCount(base, count);
        SubsetSize(FirstNumbered(base, count), syms);
        NumberedIdentifier(base, count);
        unique := Numbered(base, count);
        count := count + 1;
      }
    }
  }

  /** The tables of one function: what is taken, and what the function's own names became. */
  class SymbolTable {
    var globalSyms: set<string>
    var localSyms: set<string>
    var globalSymMap: map<string, string>
    var localSymMap: map<string, string>
    var stackVarSymMap: map<(nat, Type), string>

    /** Every name that was given out is taken, none of them is global, and no two things share one. */
    ghost predicate Valid()
      reads this
    {
      && GlobalsValid() && globalSyms <= localSyms
      && (forall n :: n in localSymMap ==> localSymMap[n] in localSyms - globalSyms && IsIdentifier(localSymMap[n]))
      && (forall v :: v in stackVarSymMap ==>
            stackVarSymMap[v] in localSyms - globalSyms && IsIdentifier(stackVarSymMap[v]))
      && (forall n, k :: n in localSymMap && k in localSymMap && n != k ==> localSymMap[n] != localSymMap[k])
      && (forall v, w :: v in stackVarSymMap && w in stackVarSymMap && v != w
            ==> stackVarSymMap[v] != stackVarSymMap[w])
      && (forall n, v :: n in localSymMap && v in stackVarSymMap ==> localSymMap[n] != stackVarSymMap[v])
    }

    ghost predicate GlobalsValid()
      reads this
    {
      && (forall n :: n in globalSymMap ==> globalSymMap[n] in globalSyms)
      && forall n, k :: n in globalSymMap && k in globalSymMap && n != k ==> globalSymMap[n] != globalSymMap[k]
    }

    /** The C keywords and the runtime's own names are taken from the start. */
    constructor (reserved: set<string>)
      ensures Valid() && globalSyms == reserved && globalSymMap == map[] && localSymMap == map[]
              && stackVarSymMap == map[]
    {
      globalSyms, localSyms := reserved, reserved;
      globalSymMap, localSymMap, stackVarSymMap := map[], map[], map[];
    }

    method DefineGlobalScopeName(name: string) returns (unique: string)
      requires GlobalsValid() && localSymMap == map[] && stackVarSymMap == map[]
      modifies this
      ensures GlobalsValid()
      ensures unique !in old(globalSyms) && IsIdentifier(unique) && globalSyms == old(globalSyms) + {unique}
      ensures globalSymMap == if name in old(globalSymMap) then old(globalSymMap) else old(globalSymMap)[name := unique]
      ensures localSymMap == old(localSymMap) && stackVarSymMap == old(stackVarSymMap)
    {
      unique := DefineName(globalSyms, StripDollar(name));
      globalSyms := globalSyms + {unique};
      if name !in globalSymMap {
        globalSymMap := globalSymMap[name := unique];
      }
    }

    /** At the start of a function the global names are copied, so that no local shadows one. */
    method BeginFunc()
      requires GlobalsValid()
      modifies this`localSyms, this`localSymMap, this`stackVarSymMap
      ensures Valid() && localSyms == globalSyms && localSymMap == map[] && stackVarSymMap == map[]
    {
      localSyms, localSymMap, stackVarSymMap := globalSyms, map[], map[];
    }

    /** Parameters, locals and labels share one map, which keeps the first entry of a name: a name that
        is defined again gets a symbol that nothing will ever refer to. */
    method DefineLocalScopeName(name: string) returns (unique: string)
      requires Valid()
      modifies this`localSyms, this`localSymMap
      ensures Valid() && IsIdentifier(unique)
      ensures unique !in old(localSyms) && localSyms == old(localSyms) + {unique}
      ensures name in localSymMap && forall k :: k in old(localSymMap)
                                       ==> k in localSymMap && localSymMap[k] == old(localSymMap)[k]
      ensures localSymMap.Keys == old(localSymMap).Keys + {name}
      ensures localSymMap[name] == unique <==> name !in old(localSymMap)
    {
      unique := DefineName(localSyms, StripDollar(name));
      localSyms := localSyms + {unique};
      if name !in localSymMap {
        localSymMap := localSymMap[name := unique];
      }
    }

    /** A stack variable is named when it is first written. */
    method StackVarName(index: nat, ty: Type) returns (name: string)
      requires Valid() && ty != Any
      modifies this`localSyms, this`stackVarSymMap
      ensures Valid() && (index, ty) in stackVarSymMap && name == stackVarSymMap[(index, ty)]
      ensures forall v :: v in old(stackVarSymMap)
                ==> v in stackVarSymMap && stackVarSymMap[v] == old(stackVarSymMap)[v]
      ensures stackVarSymMap.Keys == old(stackVarSymMap).Keys + {(index, ty)}
      ensures old(localSyms) <= localSyms
    {
      if (index, ty) in stackVarSymMap {
        return stackVarSymMap[(index, ty)];
      }
      name := DefineName(localSyms, [MangleType(ty)] + Decimal(index));
      localSyms := localSyms + {name};
      stackVarSymMap := stackVarSymMap[(index, ty) := name];
    }
  }

  /** `StripLeadingDollar`. */
  function StripDollar(name: string): string {
    if name != "" && name[0] == '$' then name[1..] else name
  }
}
