/** The code section: every body behind its size, its run-length locals in front of its instructions,
    and the whole section behind another size. */
module CodeSection {
  import opened Syntax
  import opened Bytecode
  import opened Leb128
  import opened SizeFixup
  import opened BinaryFormat
  import opened FunctionBody
  import opened BodyTheorems

  datatype Code = Code(decls: seq<LocalDecl>, body: ExprList)

  // ----- Writing ----------------------------------------------------------------------------------------------

  function EncodeDecls(decls: seq<LocalDecl>): (r: seq<Byte>)
    ensures |r| >= |decls|
  {
    if decls == [] then [] else (ULeb(decls[0].count) + SLeb(TypeCode(decls[0].ty))) + EncodeDecls(decls[1..])
  }

  /** `WriteFuncLocals` */
  function EncodeLocals(decls: seq<LocalDecl>): seq<Byte> {
    if LocalCount(decls) == 0 then ULeb(0) else ULeb(|decls|) + EncodeDecls(decls)
  }

  /** `WriteFunc` */
  function EncodeFunc(f: Format, c: Code): seq<Byte> {
    EncodeLocals(c.decls) + EncodeBody(f, c.body)
  }

  function EncodeFuncs(f: Format, canonical: bool, cs: seq<Code>): (r: seq<Byte>)
    ensures |r| >= |cs|
  {
    if cs == [] then []
    else (SizeLeb(canonical, |EncodeFunc(f, cs[0])|) + EncodeFunc(f, cs[0])) + EncodeFuncs(f, canonical, cs[1..])
  }

  function CodePayload(f: Format, canonical: bool, cs: seq<Code>): seq<Byte> {
    ULeb(|cs|) + EncodeFuncs(f, canonical, cs)
  }

  const CODE_SECTION: Byte := 10

  function EncodeCodeSection(f: Format, canonical: bool, cs: seq<Code>): seq<Byte> {
    [CODE_SECTION] + (SizeLeb(canonical, |CodePayload(f, canonical, cs)|) + CodePayload(f, canonical, cs))
  }

  // ----- Reading ------------------------------------------------------------------------------------------------

  /** `ReadCount`: every counted item takes at least one byte of what is left. */
  function ReadCount(p: seq<Byte>, at: nat, end: nat): (r: Option<ReadResult<nat>>)
    requires end <= |p|
    ensures r.Some? ==> at < r.value.next <= end
  {
    match ReadU32Leb(p, at, end)
    case None => None
    case Some(n) => if n.value > end - (at + n.size) then None else Some(ReadResult(n.value, at + n.size))
  }

  /** `total` is 64 bits wide in the reader and cannot overflow: it stops below 2^32 - 1. */
  function ReadDecls(p: seq<Byte>, at: nat, end: nat, n: nat, total: nat): (r: Option<ReadResult<seq<LocalDecl>>>)
    requires end <= |p|
    ensures r.Some? ==> at <= r.value.next && (at <= end ==> r.value.next <= end)
    decreases n
  {
    if n == 0 then Some(ReadResult([], at))
    else
      match ReadU32Leb(p, at, end)
      case None => None
      case Some(count) =>
        if count.value == 0 || total + count.value >= TWO_32 - 1 then None
        else
          match ReadS32Leb(p, at + count.size, end)
          case None => None
          case Some(ty) =>
            if TypeOf(Signed32(ty.value)).None? then None
            else
              match ReadDecls(p, at + count.size + ty.size, end, n - 1, total + count.value)
              case None => None
              case Some(rest) =>
                Some(ReadResult([LocalDecl(count.value, TypeOf(Signed32(ty.value)).value)] + rest.value, rest.next))
  }

  function ReadLocals(p: seq<Byte>, at: nat, end: nat): (r: Option<ReadResult<seq<LocalDecl>>>)
    requires end <= |p|
    ensures r.Some? ==> at < r.value.next <= end
  {
    match ReadCount(p, at, end)
    case None => None
    case Some(n) => ReadDecls(p, n.next, end, n.value, 0)
  }

  datatype FuncRead = FuncRead(decls: seq<LocalDecl>, stack: seq<LabelNode>, next: nat)

  /** One turn of the loop in `ReadCodeSection`, up to `EndFunctionBody`. */
  function ReadFunc(f: Format, p: seq<Byte>, at: nat, readEnd: nat): (r: Option<FuncRead>)
    requires readEnd <= |p|
    ensures r.Some? ==> at < r.value.next <= readEnd
  {
    match ReadU32Leb(p, at, readEnd)
    case None => None
    case Some(size) =>
      var start := at + size.size;
      match ReadLocals(p, start, readEnd)
      case None => None
      case Some(locals) =>
        match ReadBody(f, p, locals.next, start + size.value, readEnd, EMPTY_BODY)
        case None => None
        case Some(stack) => Some(FuncRead(locals.value, stack, start + size.value))
  }

  /** `LeftOpen`: the reader goes on with labels of this function on its stack. */
  datatype CodeRead = CodeError | LeftOpen(func: nat) | CodeRead(codes: seq<Code>, next: nat)

  function ReadFuncs(f: Format, p: seq<Byte>, at: nat, readEnd: nat, i: nat, n: nat): (r: CodeRead)
    requires readEnd <= |p| && i <= n
    ensures r.CodeRead? ==> |r.codes| == n - i && at <= r.next && (at <= readEnd ==> r.next <= readEnd)
    decreases n - i
  {
    if i == n then CodeRead([], at)
    else
      match ReadFunc(f, p, at, readEnd)
      case None => CodeError
      case Some(r) =>
        if |r.stack| != 1 then LeftOpen(i)
        else
          match ReadFuncs(f, p, r.next, readEnd, i + 1, n)
          case CodeRead(rest, next) => CodeRead([Code(r.decls, ToList(r.stack[0].exprs))] + rest, next)
          case other => other
  }

  /** `ReadCodeSection`, in the limits that `ReadSections` sets. */
  function ReadCodePayload(f: Format, p: seq<Byte>, at: nat, readEnd: nat): CodeRead
    requires readEnd <= |p|
  {
    match ReadCount(p, at, readEnd)
    case None => CodeError
    case Some(n) =>
      if n.value != f.funcs then CodeError
      else
        var r := ReadFuncs(f, p, n.next, readEnd, 0, n.value);
        if r.CodeRead? && r.next != readEnd then CodeError else r
  }

  lemma PayloadFills(f: Format, p: seq<Byte>, at: nat, end: nat)
    requires end <= |p|
    ensures var r := ReadCodePayload(f, p, at, end); r.CodeRead? ==> r.next == end
  {
    hide ReadFuncs, ReadU32Leb;
  }

  function ReadCodeSection(f: Format, p: seq<Byte>, at: nat): CodeRead {
    match ReadU32Leb(p, at, |p|)
    case None => CodeError
    case Some(code) =>
      match ReadU32Leb(p, at + code.size, |p|)
      case None => CodeError
      case Some(size) =>
        var start := at + code.size + size.size;
        if code.value != CODE_SECTION || start + size.value > |p| then CodeError
        else ReadCodePayload(f, p, start, start + size.value)
  }

  // ----- Written, then read -----------------------------------------------------------------------------------

  predicate DeclsOk(decls: seq<LocalDecl>) {
    && LocalCount(decls) < TWO_32 - 1
    && forall i :: 0 <= i < |decls| ==> decls[i].count > 0 && decls[i].ty != Any
  }

  predicate CodeOk(f: Format, c: Code) {
    DeclsOk(c.decls) && ListOk(f, c.body) && |EncodeFunc(f, c)| < TWO_32
  }

  function CanonCodes(cs: seq<Code>): (r: seq<Code>)
    ensures |r| == |cs| && forall i :: 0 <= i < |cs| ==> r[i] == Code(cs[i].decls, CanonList(cs[i].body))
  {
    if cs == [] then [] else [Code(cs[0].decls, CanonList(cs[0].body))] + CanonCodes(cs[1..])
  }

  lemma SizeBack(p: seq<Byte>, at: nat, end: nat, canonical: bool, size: nat)
    requires size < TWO_32 && end <= |p| && CodeAt(p, at, SizeLeb(canonical, size))
    requires at + |SizeLeb(canonical, size)| <= end
    ensures ReadU32Leb(p, at, end) == Some(Leb(size, |SizeLeb(canonical, size)|))
  {
    hide CodeAt, ULeb, FixedULeb, ReadU32Leb;
    if canonical {
      ReadULeb(p, at, end, size);
    } else {
      ReadFixedULeb(p, at, end, size);
    }
  }

  lemma TypeBack(ty: Type)
    requires ty != Any
    ensures TypeOf(Signed32(TypeCode(ty) % TWO_32)) == Some(ty) && -5 < TypeCode(ty) < 0
  {
    SignedCode(TypeCode(ty));
  }

  lemma {:induction false} DeclsBack(p: seq<Byte>, at: nat, end: nat, decls: seq<LocalDecl>, total: nat)
    requires forall i :: 0 <= i < |decls| ==> decls[i].count > 0 && decls[i].ty != Any
    requires total + LocalCount(decls) < TWO_32 - 1
    requires end <= |p| && CodeAt(p, at, EncodeDecls(decls)) && at + |EncodeDecls(decls)| <= end
    ensures ReadDecls(p, at, end, |decls|, total) == Some(ReadResult(decls, at + |EncodeDecls(decls)|))
    decreases |decls|
  {
    hide CodeAt, ULeb, SLeb, ReadU32Leb, ReadS32Leb, Signed32, TypeCode, TypeOf;
    if decls != [] {
      var d := decls[0];
      var one := ULeb(d.count) + SLeb(TypeCode(d.ty));
      CodeAtSplit(p, at, one, EncodeDecls(decls[1..]));
      CodeAtSplit(p, at, ULeb(d.count), SLeb(TypeCode(d.ty)));
      ReadULeb(p, at, end, d.count);
      TypeBack(d.ty);
      ReadSLeb32(p, at + |ULeb(d.count)|, end, TypeCode(d.ty));
      DeclsBack(p, at + |one|, end, decls[1..], total + d.count);
      assert [d] + decls[1..] == decls;
    }
  }

  /** The declarations themselves come back, not only the types they expand to. */
  lemma LocalsBack(p: seq<Byte>, at: nat, end: nat, decls: seq<LocalDecl>)
    requires DeclsOk(decls) && end <= |p| && CodeAt(p, at, EncodeLocals(decls)) && at + |EncodeLocals(decls)| <= end
    ensures ReadLocals(p, at, end) == Some(ReadResult(decls, at + |EncodeLocals(decls)|))
  {
    hide CodeAt, ULeb, ReadU32Leb, ReadDecls, EncodeDecls;
    if LocalCount(decls) == 0 {
      NoDecls(decls);
      ReadULeb(p, at, end, 0);
      EmptyDecls(p, at + |ULeb(0)|, end);
    } else {
      CodeAtSplit(p, at, ULeb(|decls|), EncodeDecls(decls));
      ReadULeb(p, at, end, |decls|) by { FewDecls(decls); }
      DeclsBack(p, at + |ULeb(|decls|)|, end, decls, 0);
    }
  }

  lemma NoDecls(decls: seq<LocalDecl>)
    requires DeclsOk(decls) && LocalCount(decls) == 0
    ensures decls == []
  {
  }

  lemma {:induction false} FewDecls(decls: seq<LocalDecl>)
    requires forall i :: 0 <= i < |decls| ==> decls[i].count > 0
    ensures |decls| <= LocalCount(decls)
    decreases |decls|
  {
    if decls != [] {
      FewDecls(decls[1..]);
    }
  }

  lemma EmptyDecls(p: seq<Byte>, at: nat, end: nat)
    requires end <= |p|
    ensures ReadDecls(p, at, end, 0, 0) == Some(ReadResult([], at))
  {
  }

  lemma FuncBack(f: Format, canonical: bool, p: seq<Byte>, at: nat, readEnd: nat, c: Code)
    requires CodeOk(f, c) && readEnd <= |p|
    requires var b := SizeLeb(canonical, |EncodeFunc(f, c)|) + EncodeFunc(f, c); CodeAt(p, at, b) && at + |b| <= readEnd
    ensures var b := SizeLeb(canonical, |EncodeFunc(f, c)|) + EncodeFunc(f, c);
            ReadFunc(f, p, at, readEnd)
            == Some(FuncRead(c.decls, [LabelNode(TypeChecker.FuncLabel, Items(CanonList(c.body)))], at + |b|))
  {
    hide CodeAt, SizeLeb, EncodeLocals, EncodeBody, ReadU32Leb, ReadLocals, ReadBody, ListOk, DeclsOk;
    var size := |EncodeFunc(f, c)|;
    CodeAtSplit(p, at, SizeLeb(canonical, size), EncodeFunc(f, c));
    SizeBack(p, at, readEnd, canonical, size);
    var start := at + |SizeLeb(canonical, size)|;
    CodeAtSplit(p, start, EncodeLocals(c.decls), EncodeBody(f, c.body));
    LocalsBack(p, start, readEnd, c.decls);
    ReadBodyBack(f, p, start + |EncodeLocals(c.decls)|, readEnd, c.body);
  }

  lemma {:induction false} FuncsBack(f: Format, canonical: bool, p: seq<Byte>, at: nat, readEnd: nat, i: nat,
                                     cs: seq<Code>)
    requires readEnd <= |p| && forall k :: 0 <= k < |cs| ==> CodeOk(f, cs[k])
    requires var b := EncodeFuncs(f, canonical, cs); CodeAt(p, at, b) && at + |b| <= readEnd
    ensures ReadFuncs(f, p, at, readEnd, i, i + |cs|)
         == CodeRead(CanonCodes(cs), at + |EncodeFuncs(f, canonical, cs)|)
    decreases |cs|
  {
    hide CodeAt, SizeLeb, EncodeFunc, ReadFunc, CodeOk, CanonList, Items, ToList;
    if cs != [] {
      var one := SizeLeb(canonical, |EncodeFunc(f, cs[0])|) + EncodeFunc(f, cs[0]);
      CodeAtSplit(p, at, one, EncodeFuncs(f, canonical, cs[1..]));
      FuncBack(f, canonical, p, at, readEnd, cs[0]);
      FuncsBack(f, canonical, p, at + |one|, readEnd, i + 1, cs[1..]);
      ToListItems(CanonList(cs[0].body));
    }
  }

  /** The written code section reads back, whether its sizes are canonical or five bytes wide. */
  lemma CodeSectionBack(f: Format, canonical: bool, cs: seq<Code>, p: seq<Byte>, at: nat)
    requires |cs| == f.funcs < TWO_32 && forall k :: 0 <= k < |cs| ==> CodeOk(f, cs[k])
    requires |CodePayload(f, canonical, cs)| < TWO_32
    requires CodeAt(p, at, EncodeCodeSection(f, canonical, cs))
    ensures ReadCodeSection(f, p, at) == CodeRead(CanonCodes(cs), at + |EncodeCodeSection(f, canonical, cs)|)
  {
    hide CodeAt, SizeLeb, ReadU32Leb, EncodeFuncs, ReadFuncs, ULeb, CodeOk;
    var payload := CodePayload(f, canonical, cs);
    CodeAtCons(p, at, CODE_SECTION, SizeLeb(canonical, |payload|) + payload);
    assert CodeAt(p, at, ULeb(CODE_SECTION)) && |ULeb(CODE_SECTION)| == 1 by { SectionCode(p, at); }
    ReadULeb(p, at, |p|, CODE_SECTION);
    CodeAtSplit(p, at + 1, SizeLeb(canonical, |payload|), payload);
    CodeInside(p, at + 1, SizeLeb(canonical, |payload|));
    SizeBack(p, at + 1, |p|, canonical, |payload|);
    var start := at + 1 + |SizeLeb(canonical, |payload|)|;
    CodeInside(p, start, payload);
    var end := start + |payload|;
    CodeAtSplit(p, start, ULeb(|cs|), EncodeFuncs(f, canonical, cs));
    ReadULeb(p, start, end, |cs|);
    FuncsBack(f, canonical, p, start + |ULeb(|cs|)|, end, 0, cs);
  }

  lemma SectionCode(p: seq<Byte>, at: nat)
    requires at < |p| && p[at] == CODE_SECTION
    ensures CodeAt(p, at, ULeb(CODE_SECTION)) && |ULeb(CODE_SECTION)| == 1
  {
    assert p[at..at + 1] == [CODE_SECTION];
  }

  lemma CodeInside(p: seq<Byte>, at: nat, c: seq<Byte>)
    requires CodeAt(p, at, c)
    ensures at + |c| <= |p|
  {
  }
}
