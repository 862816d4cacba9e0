/** The section loop, the code section loop and the opcode loop, driving the tree builder. */
module BinaryReaderClass {
  import opened Syntax
  import opened Bytecode
  import opened Leb128
  import opened TypeChecker
  import opened BinaryFormat
  import opened FunctionBody
  import opened BodyTheorems
  import opened CodeSection
  import opened IRBuilder
  import opened Sections

  /** Only the current function has changed, by more declarations. */
  predicate WithDecls(before: seq<FuncSlot>, after: seq<FuncSlot>, decls: seq<LocalDecl>) {
    var n := |before|;
    n > 0 && after == before[..n - 1] + [before[n - 1].(decls := before[n - 1].decls + decls)]
  }

  lemma MoreDecls(before: seq<FuncSlot>, read: seq<LocalDecl>, decl: LocalDecl)
    requires before != []
    ensures (before[|before| - 1].decls + read) + [decl] == before[|before| - 1].decls + (read + [decl])
  {
  }

  lemma NoDeclsYet(funcs: seq<FuncSlot>, whole: Option<ReadResult<seq<LocalDecl>>>)
    requires funcs != []
    ensures WithDecls(funcs, funcs, []) && Continues(whole, [], whole)
  {
    assert funcs[|funcs| - 1].decls + [] == funcs[|funcs| - 1].decls;
    if whole.Some? {
      assert [] + whole.value.value == whole.value.value;
    }
  }

  /** What the loop has read so far and what remains make up the whole. */
  predicate Continues(whole: Option<ReadResult<seq<LocalDecl>>>, read: seq<LocalDecl>,
                      rest: Option<ReadResult<seq<LocalDecl>>>)
  {
    whole == match rest
             case None => None
             case Some(r) => Some(ReadResult(read + r.value, r.next))
  }

  lemma OneMore(whole: Option<ReadResult<seq<LocalDecl>>>, read: seq<LocalDecl>,
                rest: Option<ReadResult<seq<LocalDecl>>>,
                decl: LocalDecl, rest': Option<ReadResult<seq<LocalDecl>>>)
    requires Continues(whole, read, rest)
    requires rest == match rest'
                     case None => None
                     case Some(r) => Some(ReadResult([decl] + r.value, r.next))
    ensures Continues(whole, read + [decl], rest')
  {
    if rest'.Some? {
      assert read + ([decl] + rest'.value.value) == (read + [decl]) + rest'.value.value;
    }
  }

  /** As `Continues`, for whole functions. */
  predicate Goes(whole: CodeRead, done: seq<Code>, rest: CodeRead) {
    whole == match rest
             case CodeRead(codes, next) => CodeRead(done + codes, next)
             case other => other
  }

  lemma AllLeft(whole: CodeRead)
    ensures Goes(whole, [], whole)
  {
    if whole.CodeRead? {
      assert [] + whole.codes == whole.codes;
    }
  }

  lemma NextGoes(whole: CodeRead, done: seq<Code>, c: Code, rest: CodeRead, rest': CodeRead)
    requires Goes(whole, done, rest)
    requires rest == match rest'
                     case CodeRead(codes, next) => CodeRead([c] + codes, next)
                     case other => other
    ensures Goes(whole, done + [c], rest')
  {
    if rest'.CodeRead? {
      assert done + ([c] + rest'.codes) == (done + [c]) + rest'.codes;
    }
  }

  lemma FuncsFail(f: Format, p: seq<Byte>, at: nat, readEnd: nat, i: nat, n: nat)
    requires readEnd <= |p| && i < n && ReadFunc(f, p, at, readEnd).None?
    ensures ReadFuncs(f, p, at, readEnd, i, n) == CodeError
  {
  }

  lemma FuncsStep(f: Format, p: seq<Byte>, at: nat, readEnd: nat, i: nat, n: nat)
    requires readEnd <= |p| && i < n && ReadFunc(f, p, at, readEnd).Some?
    ensures var r := ReadFunc(f, p, at, readEnd).value;
            ReadFuncs(f, p, at, readEnd, i, n)
            == if |r.stack| != 1 then LeftOpen(i)
               else
                 match ReadFuncs(f, p, r.next, readEnd, i + 1, n)
                 case CodeRead(rest, next) => CodeRead([Code(r.decls, ToList(r.stack[0].exprs))] + rest, next)
                 case other => other
  {
  }

  lemma FuncsEnd(f: Format, p: seq<Byte>, at: nat, readEnd: nat, n: nat)
    requires readEnd <= |p|
    ensures ReadFuncs(f, p, at, readEnd, n, n) == CodeRead([], at)
  {
  }

  class BinaryReader {
    const data: seq<Byte>
    const format: Format
    const ir: BinaryReaderIR
    const setting: Setting
    var offset: nat
    var readEnd: nat
    var lastKnown: nat
    var didReadNames: bool

    ghost predicate Valid()
      reads this, ir
    {
      offset <= readEnd <= |data| && ir.Valid()
    }

    constructor (p: seq<Byte>, f: Format, s: Setting, builder: BinaryReaderIR)
      requires builder.Valid()
      ensures Valid() && data == p && format == f && setting == s && ir == builder && AtStart()
    {
      data, format, setting, ir := p, f, s, builder;
      offset, readEnd, lastKnown, didReadNames := 0, |p|, INVALID_SECTION, false;
    }

    ghost predicate AtStart()
      reads this
    {
      offset == 0 && readEnd == |data| && lastKnown == INVALID_SECTION && !didReadNames
    }

    /** The callback of one instruction, an `end` at the end of the body aside. */
    method Callback(t: Token) returns (ok: bool)
      requires ir.Valid() && Starts(t) && (t.Leaf? ==> !t.e.Block? && !t.e.Loop? && !t.e.If?)
      modifies ir`lists, ir`labelStack, ir`tree, ir`done, ir`finished
      ensures ir.Valid() && (ok <==> Build(old(ir.tree), t).Some?)
      ensures ok ==> ir.tree == Build(old(ir.tree), t).value
      ensures ok ==> SameBottom(old(ir.labelStack), ir.labelStack)
      ensures Grown(old(ir.finished), ir.finished)
    {
      hide Build, StackIs, ListIs;
      match t
      case Leaf(e) => ok := ir.OnLeafExpr(e);
      case Open(kind, sig) => ok := ir.OnOpenExpr(kind, sig);
      case ElseToken => ok := ir.OnElseExpr();
      case EndToken => ok := ir.OnEndExpr();
    }

    /** Accepts what `ReadBody` accepts and leaves the label stack it describes; it stops exactly at the end
        of the body. */
    method ReadFunctionBody(endOffset: nat) returns (ok: bool)
      requires Valid()
      modifies this`offset, ir`lists, ir`labelStack, ir`tree, ir`done, ir`finished
      ensures Valid()
      ensures ok <==> ReadBody(format, data, old(offset), endOffset, readEnd, old(ir.tree)).Some?
      ensures ok ==> offset == endOffset
                     && ir.tree == ReadBody(format, data, old(offset), endOffset, readEnd, old(ir.tree)).value
      ensures ok ==> ir.labelStack == old(ir.labelStack) || SameBottom(old(ir.labelStack), ir.labelStack)
      ensures Grown(old(ir.finished), ir.finished)
    {
      hide StackIs, ListIs, Build, ReadToken;
      ghost var whole := ReadBody(format, data, offset, endOffset, readEnd, ir.tree);
      var seenEndOpcode := false;
      while offset < endOffset
        invariant Valid()
        invariant Grown(old(ir.finished), ir.finished)
        invariant ir.labelStack == old(ir.labelStack) || SameBottom(old(ir.labelStack), ir.labelStack)
        invariant seenEndOpcode ==> offset == endOffset && whole == Some(ir.tree)
        invariant !seenEndOpcode ==> ReadBody(format, data, offset, endOffset, readEnd, ir.tree) == whole
        decreases endOffset - offset
      {
        var t := ReadToken(format, data, offset, readEnd);
        if t.None? {
          return false;
        }
        ReadTokenStarts(format, data, offset, readEnd);
        LeafShape(format, data, offset, readEnd);
        offset := t.value.next;
        if t.value.value == EndToken && offset == endOffset {
          seenEndOpcode := true;
        } else {
          ok := Callback(t.value.value);
          if !ok {
            return false;
          }
        }
      }
      ok := offset == endOffset && seenEndOpcode;
    }

    /** The declarations go to the current function one by one. */
    method ReadLocals() returns (ok: bool)
      requires Valid() && ir.funcs != []
      modifies this`offset, ir`funcs
      ensures Valid() && (ok <==> CodeSection.ReadLocals(data, old(offset), readEnd).Some?)
      ensures ok ==> var r := CodeSection.ReadLocals(data, old(offset), readEnd).value;
                     && offset == r.next && |ir.funcs| == |old(ir.funcs)|
                     && WithDecls(old(ir.funcs), ir.funcs, r.value)
    {
      hide StackIs, ListIs, ReadU32Leb, ReadS32Leb, TypeOf, Signed32;
      ghost var funcs := ir.funcs;
      var count := ReadCount(data, offset, readEnd);
      if count.None? {
        return false;
      }
      var n := count.value.value;
      offset := count.value.next;
      ghost var whole := ReadDecls(data, offset, readEnd, n, 0);
      ghost var read: seq<LocalDecl> := [];
      var k: nat, total: nat := 0, 0;
      NoDeclsYet(funcs, whole);
      while k < n
        invariant Valid() && k <= n && WithDecls(funcs, ir.funcs, read)
        invariant Continues(whole, read, ReadDecls(data, offset, readEnd, n - k, total))
      {
        var num := ReadU32Leb(data, offset, readEnd);
        if num.None? || num.value.value == 0 || total + num.value.value >= TWO_32 - 1 {
          return false;
        }
        var ty := ReadS32Leb(data, offset + num.value.size, readEnd);
        if ty.None? || TypeOf(Signed32(ty.value.value)).None? {
          return false;
        }
        ghost var rest := ReadDecls(data, offset, readEnd, n - k, total);
        offset := offset + num.value.size + ty.value.size;
        total := total + num.value.value;
        ir.OnLocalDecl(num.value.value, TypeOf(Signed32(ty.value.value)).value);
        ghost var decl := LocalDecl(num.value.value, TypeOf(Signed32(ty.value.value)).value);
        MoreDecls(funcs, read, decl);
        OneMore(whole, read, rest, decl, ReadDecls(data, offset, readEnd, n - k - 1, total));
        read := read + [decl];
        k := k + 1;
      }
      assert read + [] == read;
      ok := true;
    }

    /** One turn of the loop in `ReadCodeSection`. What an earlier function left on the label stack stays
        below this one. */
    method ReadFunction() returns (ok: bool)
      requires Valid() && (ir.tree != [] ==> ir.tree[|ir.tree| - 1].exprs != [])
      modifies this`offset, ir
      ensures Valid() && Grown(old(ir.finished), ir.finished)
      ensures ok && ir.tree != [] ==> ir.tree[|ir.tree| - 1].exprs != []
      ensures old(ir.tree) == [] ==> (ok <==> ReadFunc(format, data, old(offset), readEnd).Some?)
      ensures old(ir.tree) == [] && ok ==> var r := ReadFunc(format, data, old(offset), readEnd).value;
                offset == r.next && (|r.stack| == 1
                                     ==> ir.tree == [] && Added(old(ir.funcs), r.decls, r.stack[0].exprs))
    {
      hide StackIs, ListIs, ReadU32Leb, ReadBody, CodeSection.ReadLocals, Build, ToList;
      StackSize(ir.lists, ir.done, ir.labelStack, ir.tree);
      ir.BeginFunctionBody();
      assert old(ir.tree) == [] ==> ir.tree == EMPTY_BODY;
      ghost var mark := ir.labelStack;
      var size := ReadU32Leb(data, offset, readEnd);
      if size.None? {
        return false;
      }
      offset := offset + size.value.size;
      var endOffset := offset + size.value.value;
      ok := ReadLocals();
      if !ok {
        return false;
      }
      ok := ReadFunctionBody(endOffset);
      if !ok {
        return false;
      }
      StackSize(ir.lists, ir.done, ir.labelStack, ir.tree);
      assert |ir.tree| == 1 && old(ir.tree) == [] ==> ir.labelStack == mark;
      ok := ir.EndFunctionBody();
    }

    ghost predicate Added(before: seq<FuncSlot>, decls: seq<LocalDecl>, exprs: seq<Expr>)
      reads ir
    {
      var n := |before|;
      && |ir.funcs| == n + 1 && ir.funcs[..n] == before && ir.funcs[n].decls == decls
      && ir.funcs[n].exprs in ir.finished && ir.finished[ir.funcs[n].exprs] == ToList(exprs)
    }

    /** All bodies. When one of them leaves labels open, the specification has nothing more to say. */
    method ReadCodePayload() returns (ok: bool)
      requires Valid() && ir.tree == []
      modifies this`offset, ir
      ensures Valid()
      ensures match CodeSection.ReadCodePayload(format, data, old(offset), readEnd)
              case CodeRead(codes, next) => ok && offset == next && FuncsAre(old(ir.funcs), codes)
              case CodeError => !ok || offset != readEnd
              case LeftOpen(_) => true
    {
      hide StackIs, ListIs, ReadFunc, CodeSection.ReadCount, ToList, ReadFuncs;
      ghost var base := ir.funcs;
      var count := CodeSection.ReadCount(data, offset, readEnd);
      if count.None? || count.value.value != format.funcs {
        return false;
      }
      offset := count.value.next;
      var n := count.value.value;
      ghost var start := offset;
      ghost var whole := ReadFuncs(format, data, offset, readEnd, 0, n);
      ghost var codes: seq<Code> := [];
      var i := 0;
      AllLeft(whole);
      while i < n
        invariant Valid() && i <= n && (ir.tree != [] ==> ir.tree[|ir.tree| - 1].exprs != [])
        invariant whole.LeftOpen? || (ir.tree == [] && FuncsAre(base, codes) && |codes| == i
                                      && Goes(whole, codes, ReadFuncs(format, data, offset, readEnd, i, n)))
      {
        ghost var before, at := ir.funcs, offset;
        ok := ReadFunction();
        if !ok {
          if !whole.LeftOpen? {
            FuncsFail(format, data, at, readEnd, i, n);
          }
          return false;
        }
        if !whole.LeftOpen? {
          FuncsStep(format, data, at, readEnd, i, n);
          var r := ReadFunc(format, data, at, readEnd).value;
          if |r.stack| == 1 {
            NextGoes(whole, codes, Code(r.decls, ToList(r.stack[0].exprs)), ReadFuncs(format, data, at, readEnd, i, n),
                     ReadFuncs(format, data, r.next, readEnd, i + 1, n));
            codes := codes + [Code(r.decls, ToList(r.stack[0].exprs))];
          }
        }
        i := i + 1;
      }
      FuncsEnd(format, data, offset, readEnd, n);
      assert codes + [] == codes;
      ok := true;
    }

    lemma NamesStop(start: nat, end: nat, read: seq<Section>, at: nat)
      requires at < end <= |data| && Chain(data, end, start, read, at)
      requires var r := ReadHeader(data, at, end);
               r.None? || !Increasing(read + [r.value]) || !SubsectionOk(setting, r.value)
      ensures !NamesOk(setting, data, start, end)
    {
      hide ReadHeader, Chain, SubsectionOk;
      forall all | NamesAre(setting, data, start, end, all)
        ensures false
      {
        NextSection(data, end, start, read, at, all);
      }
    }

    lemma NotIncreasing(read: seq<Section>, r: Option<Section>)
      ensures r.Some? && read != [] && r.value.kind <= read[|read| - 1].kind ==> !Increasing(read + [r.value])
    {
      if r.Some? && read != [] {
        var more := read + [r.value];
        assert more[|read| - 1] == read[|read| - 1] && more[|read|] == r.value;
      }
    }

    lemma NamesEnd(start: nat, end: nat, read: seq<Section>)
      requires end <= |data| && Chain(data, end, start, read, end) && Increasing(read)
      requires forall i :: 0 <= i < |read| ==> SubsectionOk(setting, read[i])
      ensures NamesOk(setting, data, start, end)
    {
      hide Chain, Increasing, SubsectionOk;
      assert NamesAre(setting, data, start, end, read);
    }

    /** The guard in a subsection gives `read_end_` back on every way out. */
    method ReadSubsection(ghost start: nat, ghost read: seq<Section>, previousType: Option<nat>)
      returns (ok: bool, kind: nat)
      requires Valid() && setting.Bounded() && offset < readEnd
      requires Chain(data, readEnd, start, read, offset) && Increasing(read)
      requires previousType == if read == [] then None else Some(read[|read| - 1].kind)
      modifies this`offset, this`readEnd
      ensures Valid() && readEnd == old(readEnd)
      ensures !ok ==> !NamesOk(setting, data, start, readEnd)
      ensures ok ==> var r := ReadHeader(data, old(offset), readEnd);
                && r.Some? && r.value.kind == kind && offset == r.value.end
                && Increasing(read + [r.value]) && SubsectionOk(setting, r.value)
    {
      hide Chain, ReadU32Leb;
      ghost var at, end := offset, readEnd;
      ok, kind := false, 0;
      var ty := ReadU32Leb(data, offset, readEnd);
      if ty.None? || (previousType.Some? && ty.value.value <= previousType.value) {
        NotIncreasing(read, ReadHeader(data, at, end));
        NamesStop(start, end, read, at);
        return;
      }
      kind := ty.value.value;
      offset := offset + ty.value.size;
      var size := ReadU32Leb(data, offset, readEnd);
      if size.None? || offset + size.value.size + size.value.value > readEnd {
        NamesStop(start, end, read, at);
        return;
      }
      offset := offset + size.value.size;
      var previous, subsectionEnd := readEnd, offset + size.value.value;
      readEnd := subsectionEnd;
      if kind < SUBSECTION_COUNT {
        if size.value.value != 0 {
          var stopped := setting.subsection(kind, offset, readEnd);
          if stopped.None? {
            NamesStop(start, end, read, at);
            readEnd := previous;
            return;
          }
          offset := stopped.value;
        }
      } else {
        offset := subsectionEnd;
      }
      ok := offset == subsectionEnd;
      readEnd := previous;
      if !ok {
        NamesStop(start, end, read, at);
      }
    }

    /** The subsections fill the section and their kinds increase, or it is an error. */
    method ReadNameSection() returns (ok: bool)
      requires Valid() && setting.Bounded()
      modifies this`offset, this`readEnd
      ensures Valid() && readEnd == old(readEnd)
      ensures ok <==> NamesOk(setting, data, old(offset), readEnd)
      ensures ok ==> offset == readEnd
    {
      hide Chain, ReadHeader, SubsectionOk;
      ghost var start := offset;
      ghost var read: seq<Section> := [];
      var previousType: Option<nat> := None;
      assert Chain(data, readEnd, start, read, offset) by { NoSections(data, readEnd, start); }
      while offset < readEnd
        invariant Valid() && readEnd == old(readEnd)
        invariant Chain(data, readEnd, start, read, offset) && Increasing(read)
        invariant forall i :: 0 <= i < |read| ==> SubsectionOk(setting, read[i])
        invariant previousType == if read == [] then None else Some(read[|read| - 1].kind)
      {
        ghost var at := offset;
        var kind;
        ok, kind := ReadSubsection(start, read, previousType);
        if !ok {
          return;
        }
        ghost var r := ReadHeader(data, at, readEnd).value;
        HeaderInside(data, at, readEnd);
        ChainGrows(data, readEnd, start, read, at, r);
        read := read + [r];
        previousType := Some(kind);
      }
      NamesEnd(start, readEnd, read);
      ok := true;
    }

    /** Exact about where it stops and about whether a name section has now been read. */
    method ReadCustomSection() returns (ok: bool)
      requires Valid() && setting.Bounded()
      modifies this`offset, this`readEnd, this`didReadNames
      ensures Valid() && readEnd == old(readEnd)
      ensures var r := CustomEnd(setting, data, Section(CUSTOM, old(offset), readEnd));
              (ok <==> r.Some?) && (ok ==> offset == r.value)
      ensures didReadNames == (old(didReadNames) || IsNames(setting, data, Section(CUSTOM, old(offset), readEnd)))
    {
      hide ReadStr, NamesOk;
      var name := ReadStr(setting, data, offset, readEnd);
      if name.None? {
        return false;
      }
      offset := name.value.next;
      ok := true;
      if setting.readDebugNames && name.value.value == NAME_SECTION {
        ok := ReadNameSection();
        if ok {
          didReadNames := true;
        }
      } else if HasContents(setting, name.value.value) {
        var stopped := setting.custom(name.value.value, offset, readEnd);
        if stopped.None? {
          return false;
        }
        offset := stopped.value;
      } else {
        offset := readEnd;
      }
    }

    /** The current section, by its kind. Code is read into the builder; nothing else touches it. */
    method ReadContents(kind: nat) returns (ok: bool)
      requires Valid() && setting.Bounded() && kind < SECTION_COUNT
      requires kind == CODE_SECTION ==> ir.tree == []
      modifies this`offset, this`readEnd, this`didReadNames, ir
      ensures Valid() && readEnd == old(readEnd)
      ensures var f := Section(kind, old(offset), readEnd);
              && (ok && offset == readEnd ==> Tolerated(setting, format, data, f))
              && (!ok || offset != readEnd ==>
                    (kind == CUSTOM && !ok && !setting.failOnCustom) || !Accepted(setting, format, data, f))
              && (kind == CUSTOM && !ok ==> CustomEnd(setting, data, f).None?)
              && didReadNames == (old(didReadNames) || IsNames(setting, data, f))
              && (kind != CODE_SECTION ==> unchanged(ir))
              && (kind == CODE_SECTION && ok && offset == readEnd ==> CodeHeld(old(ir.funcs), f))
    {
      hide CustomEnd, CodeSection.ReadCodePayload, StackIs, ListIs, ListHolds;
      if kind == CUSTOM {
        ok := ReadCustomSection();
      } else if kind == CODE_SECTION {
        PayloadFills(format, data, offset, readEnd);
        ok := ReadCodePayload();
        TreesHeld(old(ir.funcs));
      } else {
        var stopped := setting.known(kind, offset, readEnd);
        ok := stopped.Some?;
        if ok {
          offset := stopped.value;
        }
      }
    }

    /** The functions of the code section, unless the specification says nothing of it. */
    ghost predicate CodeHeld(before: seq<FuncSlot>, f: Section)
      requires f.end <= |data|
      reads ir
    {
      match CodeSection.ReadCodePayload(format, data, f.start, f.end)
      case CodeRead(codes, _) => FuncsHold(before, codes)
      case _ => true
    }

    /** The section code, its size and the checks on them. */
    method ReadSectionHeader(ghost before: seq<Section>) returns (section: Option<nat>, end: nat)
      requires Valid() && offset < readEnd == |data| && AllInside(data, before)
      requires Remembers(setting, data, before, lastKnown, didReadNames)
      modifies this`offset
      ensures Valid()
      ensures var r := ReadHeader(data, old(offset), |data|);
              match section
              case None => r.None? || !InSequence(setting, data, before, r.value)
              case Some(kind) =>
                && r == Some(Section(kind, offset, end)) && InSequence(setting, data, before, r.value)
                && kind < SECTION_COUNT && (kind == CUSTOM || lastKnown == INVALID_SECTION || lastKnown < kind)
    {
      hide InSequence, AllInside, Remembers, IsNames, ReadU32Leb;
      section, end := None, 0;
      var code := ReadU32Leb(data, offset, readEnd);
      if code.None? {
        return;
      }
      var size := ReadU32Leb(data, offset + code.value.size, readEnd);
      if size.None? {
        return;
      }
      offset := offset + code.value.size + size.value.size;
      end := offset + size.value.value;
      var kind := code.value.value;
      ghost var f := Section(kind, offset, end);
      if kind >= SECTION_COUNT {
        UnknownKind(setting, data, before, f);
        return;
      }
      SequenceChecked(setting, data, before, lastKnown, didReadNames, f);
      if end > |data| || !(lastKnown == INVALID_SECTION || kind == CUSTOM || kind > lastKnown)
        || (didReadNames && kind != CUSTOM) {
        return;
      }
      section := Some(kind);
    }

    /** What one turn of the loop in `ReadSections` says: go on, go on with an error, or stop. */
    method ReadSection(ghost before: seq<Section>) returns (status: SectionStatus)
      requires Valid() && setting.Bounded() && offset < readEnd == |data| && AllInside(data, before)
      requires Remembers(setting, data, before, lastKnown, didReadNames)
      requires BeforeCode() ==> ir.tree == []
      modifies this, ir
      ensures Valid() && readEnd == |data|
      ensures BeforeCode() ==> status == Stop || ir.tree == []
      ensures status != Stop ==> var r := ReadHeader(data, old(offset), |data|);
                && r.Some? && offset == r.value.end && InSequence(setting, data, before, r.value)
                && lastKnown == (if r.value.kind == CUSTOM then old(lastKnown) else r.value.kind)
                && (r.value.kind != CUSTOM ==> old(lastKnown) == INVALID_SECTION
                                               || old(lastKnown) < lastKnown < INVALID_SECTION)
                && didReadNames == (old(didReadNames) || IsNames(setting, data, r.value))
                && (status == Good ==> Tolerated(setting, format, data, r.value))
                && (status == Bad ==> !Accepted(setting, format, data, r.value))
                && (status == Good && r.value.kind == CODE_SECTION ==> CodeHeld(old(ir.funcs), r.value))
                && (r.value.kind != CODE_SECTION ==> unchanged(ir))
      ensures status == Stop ==> var r := ReadHeader(data, old(offset), |data|);
                r.None? || !InSequence(setting, data, before, r.value) || !Accepted(setting, format, data, r.value)
    {
      hide InSequence, AllInside, Remembers, IsNames, ReadHeader, StackIs, ListIs, CodeHeld, CustomEnd;
      HeaderInside(data, offset, |data|);
      var section, end := ReadSectionHeader(before);
      if section.None? {
        return Stop;
      }
      var previous := readEnd;
      readEnd := end;
      var ok := ReadContents(section.value);
      var stopOnFirstError := setting.stopOnFirstError && (section.value != CUSTOM || setting.failOnCustom);
      if !ok && !stopOnFirstError {
        offset := readEnd;
      }
      status := if !ok && stopOnFirstError then Stop
                else if offset != readEnd then Stop
                else if ok || (section.value == CUSTOM && !setting.failOnCustom) then Good
                else Bad;
      if status != Stop && section.value != CUSTOM {
        lastKnown := section.value;
      }
      readEnd := previous;
    }

    /** Reads a module exactly when its bytes are a sequence of sections in order that their readers accept,
        and then has read all of them; every function of the code section is in the builder. */
    method ReadSections() returns (ok: bool, ghost read: seq<Section>)
      requires Valid() && setting.Bounded() && AtStart() && ir.tree == []
      modifies this, ir
      ensures Valid() && readEnd == |data|
      ensures ok ==> offset == |data| && SectionsAre(setting, data, 0, read)
      ensures ok ==> forall i :: 0 <= i < |read| ==> Tolerated(setting, format, data, read[i])
      ensures ok ==> CodeHeldIn(old(ir.funcs), read)
      ensures !ok ==> forall all :: SectionsAre(setting, data, 0, all) ==> !AllAccepted(all)
    {
      hide Chain, ReadHeader, InSequence, AllInSequence, Remembers, Accepted, Tolerated, IsNames, StackIs, ListIs,
           CodeHeld;
      read := [];
      var result := true;
      ghost var refused: nat := 0;
      NoSections(data, |data|, 0);
      NothingRead();
      while offset < |data|
        invariant Valid() && readEnd == |data| && Chain(data, |data|, 0, read, offset) && AllInside(data, read)
        invariant AllInSequence(setting, data, read) && Remembers(setting, data, read, lastKnown, didReadNames)
        invariant BeforeCode() ==> ir.tree == [] && ir.funcs == old(ir.funcs)
        invariant result ==> forall i :: 0 <= i < |read| ==> Tolerated(setting, format, data, read[i])
        invariant result ==> CodeHeldIn(old(ir.funcs), read)
        invariant !result ==> refused < |read| && !Accepted(setting, format, data, read[refused])
      {
        ghost var at, last, names := offset, lastKnown, didReadNames;
        var status := ReadSection(read);
        if status == Stop {
          forall all | SectionsAre(setting, data, 0, all)
            ensures !AllAccepted(all)
          {
            SectionsStop(setting, format, data, 0, read, at, all);
          }
          return false, read;
        }
        ghost var f := ReadHeader(data, at, |data|).value;
        HeaderInside(data, at, |data|);
        ChainGrows(data, |data|, 0, read, at, f);
        SequenceGrows(setting, data, read, f);
        RemembersMore(setting, data, read, last, names, f);
        if f.kind == CODE_SECTION {
          OnlyCode(read, last, names, f);
        }
        if status == Bad {
          result, refused := false, |read|;
        }
        read := read + [f];
      }
      forall all | SectionsAre(setting, data, 0, all)
        ensures !result ==> !AllAccepted(all)
      {
        SectionsUnique(setting, data, 0, read, all);
      }
      ok := result;
    }

    predicate BeforeCode()
      reads this
    {
      lastKnown == INVALID_SECTION || lastKnown < CODE_SECTION
    }

    ghost predicate CodeHeldIn(before: seq<FuncSlot>, read: seq<Section>)
      requires AllInside(data, read)
      reads ir
    {
      forall i :: 0 <= i < |read| && read[i].kind == CODE_SECTION ==> CodeHeld(before, read[i])
    }

    /** A second code section would be out of order. */
    lemma OnlyCode(read: seq<Section>, last: nat, names: bool, f: Section)
      requires AllInside(data, read) && Remembers(setting, data, read, last, names)
      requires InSequence(setting, data, read, f) && f.kind == CODE_SECTION
      ensures forall i :: 0 <= i < |read| ==> read[i].kind != CODE_SECTION
      ensures last == INVALID_SECTION || last < CODE_SECTION
    {
      hide IsNames;
    }

    ghost predicate AllAccepted(all: seq<Section>)
      requires AllInside(data, all)
    {
      forall i :: 0 <= i < |all| ==> Accepted(setting, format, data, all[i])
    }

    lemma NothingRead()
      ensures AllInside(data, []) && AllInSequence(setting, data, [])
              && Remembers(setting, data, [], INVALID_SECTION, false)
    {
    }

    /** The same read off the builder's lists: each added function's list holds its tree and nothing else. */
    ghost predicate FuncsHold(before: seq<FuncSlot>, codes: seq<Code>)
      reads ir
    {
      && |ir.funcs| == |before| + |codes|
      && forall k :: 0 <= k < |codes| ==> SlotHolds(ir.funcs[|before| + k], codes[k])
    }

    ghost predicate SlotHolds(slot: FuncSlot, c: Code)
      reads ir
    {
      slot.decls == c.decls && forall es :: ListHolds(ir.lists, slot.exprs, es) <==> es == c.body
    }

    lemma TreesHeld(before: seq<FuncSlot>)
      requires Valid()
      ensures forall codes: seq<Code> :: FuncsAre(before, codes) ==> FuncsHold(before, codes)
    {
      hide StackIs, ListIs, ListHolds;
      forall codes: seq<Code> | FuncsAre(before, codes)
        ensures FuncsHold(before, codes)
      {
        forall k | 0 <= k < |codes|
          ensures SlotHolds(ir.funcs[|before| + k], codes[k])
        {
          var slot := ir.funcs[|before| + k];
          assert SlotIs(slot, codes[k]);
          HoldsOnly(ir.lists, ir.done, slot.exprs, codes[k].body);
        }
      }
    }

    /** The functions that were added, with what their lists hold. */
    ghost predicate FuncsAre(before: seq<FuncSlot>, codes: seq<Code>)
      reads ir
    {
      && |ir.funcs| == |before| + |codes|
      && forall k :: 0 <= k < |codes| ==> SlotIs(ir.funcs[|before| + k], codes[k])
    }

    ghost predicate SlotIs(slot: FuncSlot, c: Code)
      reads ir
    {
      slot.decls == c.decls && slot.exprs in ir.finished && ir.finished[slot.exprs] == c.body
    }

    lemma LeafShape(f: Format, p: seq<Byte>, at: nat, end: nat)
      requires end <= |p| && ReadToken(f, p, at, end).Some?
      ensures var t := ReadToken(f, p, at, end).value.value; t.Leaf? ==> !t.e.Block? && !t.e.Loop? && !t.e.If?
    {
      hide BlockSig, ReadS32Leb, ReadS64Leb, ReadU32Leb, ReadDepths;
    }
  }
}
