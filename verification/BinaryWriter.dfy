/** The writer's tree walk over a stream, and the code section with sizes that are fixed up afterwards. */
module BinaryWriterClass {
  import opened Syntax
  import opened Bytecode
  import opened Leb128
  import opened SizeFixup
  import opened TypeChecker
  import opened BinaryFormat
  import opened FunctionBody
  import opened BodyTheorems
  import opened CodeSection

  lemma Joined(a: seq<Byte>, b: seq<Byte>, c: seq<Byte>)
    ensures (a + b) + c == a + (b + c)
  {
  }

  lemma {:induction false} DepthsSnoc(ds: seq<nat>, i: nat)
    requires i < |ds|
    ensures EncodeDepths(ds[..i + 1]) == EncodeDepths(ds[..i]) + ULeb(ds[i])
    decreases i
  {
    hide ULeb;
    if i == 0 {
      assert ds[..1] == [ds[0]] && ds[..1][1..] == [];
    } else {
      DepthsSnoc(ds[1..], i - 1);
      assert ds[..i + 1][1..] == ds[1..][..i] && ds[..i][1..] == ds[1..][..i - 1];
    }
  }

  lemma {:induction false} DeclsSnoc(ds: seq<LocalDecl>, i: nat)
    requires i < |ds|
    ensures EncodeDecls(ds[..i + 1]) == EncodeDecls(ds[..i]) + (ULeb(ds[i].count) + SLeb(TypeCode(ds[i].ty)))
    decreases i
  {
    hide ULeb, SLeb, TypeCode;
    if i == 0 {
      assert ds[..1] == [ds[0]] && ds[..1][1..] == [];
    } else {
      DeclsSnoc(ds[1..], i - 1);
      assert ds[..i + 1][1..] == ds[1..][..i] && ds[..i][1..] == ds[1..][..i - 1];
    }
  }

  lemma {:induction false} FuncsSnoc(f: Format, canonical: bool, cs: seq<Code>, i: nat)
    requires i < |cs|
    ensures EncodeFuncs(f, canonical, cs[..i + 1])
         == EncodeFuncs(f, canonical, cs[..i]) + (SizeLeb(canonical, |EncodeFunc(f, cs[i])|) + EncodeFunc(f, cs[i]))
    decreases i
  {
    hide SizeLeb, EncodeFunc;
    if i == 0 {
      assert cs[..1] == [cs[0]] && cs[..1][1..] == [];
    } else {
      FuncsSnoc(f, canonical, cs[1..], i - 1);
      assert cs[..i + 1][1..] == cs[1..][..i] && cs[..i][1..] == cs[1..][..i - 1];
    }
  }

  /** The tokens of an instruction that is its own token. */
  lemma OneToken(f: Format, e: Expr)
    requires !e.Block? && !e.Loop? && !e.If?
    ensures EncodeTokens(f, ExprTokens(e)) == EncodeLeaf(e)
  {
    hide EncodeLeaf;
    assert [Leaf(e)][1..] == [];
  }

  lemma NestTokens(f: Format, open: Token, inner: seq<Token>)
    ensures EncodeTokens(f, [open] + (inner + [EndToken])) == EncodeToken(f, open) + (EncodeTokens(f, inner) + [0x0b])
  {
    hide EncodeLeaf;
    EncodeAppend(f, inner, [EndToken]);
    assert ([open] + (inner + [EndToken]))[1..] == inner + [EndToken];
    assert [EndToken][1..] == [];
  }

  lemma ElseOpens(f: Format, ts: seq<Token>)
    ensures EncodeTokens(f, [ElseToken] + ts) == [0x05] + EncodeTokens(f, ts)
  {
    assert ([ElseToken] + ts)[1..] == ts;
  }

  class BinaryWriter {
    const stream: MemoryStream
    const sizes: SizeWriter
    const format: Format

    ghost predicate Valid()
      reads stream
    {
      stream.Valid() && sizes.stream == stream
    }

    constructor (s: MemoryStream, f: Format, canonicalizeLebs: bool)
      requires s.Valid()
      ensures Valid() && stream == s && format == f && sizes.canonicalizeLebs == canonicalizeLebs
    {
      stream, format := s, f;
      sizes := new SizeWriter(s, canonicalizeLebs);
    }

    method WriteOpcode(op: Byte)
      requires Valid()
      modifies stream
      ensures Valid() && stream.Contents() == old(stream.Contents()) + [op]
    {
      stream.WriteData([op]);
    }

    method WriteU32Leb(v: nat)
      requires Valid()
      modifies stream
      ensures Valid() && stream.Contents() == old(stream.Contents()) + ULeb(v)
    {
      var data := WriteU32Leb128(v);
      stream.WriteData(data);
    }

    method WriteS32Leb(v: int)
      requires Valid()
      modifies stream
      ensures Valid() && stream.Contents() == old(stream.Contents()) + SLeb(v)
    {
      var data := WriteSLeb128(v);
      stream.WriteData(data);
    }

    method WriteIndexed(op: Byte, i: nat)
      requires Valid()
      modifies stream
      ensures Valid() && stream.Contents() == old(stream.Contents()) + ([op] + ULeb(i))
    {
      WriteOpcode(op);
      WriteU32Leb(i);
      Joined(old(stream.Contents()), [op], ULeb(i));
    }

    /** The loop of `Module::GetFuncTypeIndex`. */
    method GetFuncTypeIndex(sig: Sig) returns (i: nat)
      ensures i == TypeIndex(format.types, sig)
    {
      i := 0;
      while i < |format.types| && format.types[i] != sig
        invariant i <= |format.types|
        invariant TypeIndex(format.types, sig) == i + TypeIndex(format.types[i..], sig)
      {
        assert format.types[i..][1..] == format.types[i + 1..];
        i := i + 1;
      }
    }

    method WriteBlockDecl(sig: Sig)
      requires Valid() && BlockSigOk(format, sig)
      modifies stream
      ensures Valid() && stream.Contents() == old(stream.Contents()) + SLeb(BlockCode(format.types, sig))
    {
      hide SLeb, TypeIndex;
      if |sig.params| == 0 && |sig.results| <= 1 {
        if |sig.results| == 0 {
          WriteS32Leb(VOID);
        } else {
          WriteS32Leb(TypeCode(sig.results[0]));
        }
        return;
      }
      var index := GetFuncTypeIndex(sig);
      WriteS32Leb(index);
    }

    method WriteOpen(kind: Kind, sig: Sig)
      requires Valid() && BlockSigOk(format, sig)
      modifies stream
      ensures Valid() && stream.Contents() == old(stream.Contents()) + EncodeToken(format, Open(kind, sig))
    {
      hide SLeb, BlockCode, BlockSigOk;
      WriteOpcode(OpenOpcode(kind));
      WriteBlockDecl(sig);
      Joined(old(stream.Contents()), [OpenOpcode(kind)], SLeb(BlockCode(format.types, sig)));
    }

    method WriteBrTable(targets: seq<nat>, default: nat)
      requires Valid()
      modifies stream
      ensures Valid() && stream.Contents() == old(stream.Contents()) + EncodeLeaf(BrTable(targets, default))
    {
      hide ULeb, EncodeDepths;
      ghost var base := stream.Contents();
      WriteIndexed(0x0e, |targets|);
      ghost var head := [0x0e] + ULeb(|targets|);
      NoDepths(targets);
      assert base + head == (base + head) + [];
      var i := 0;
      while i < |targets|
        invariant Valid() && i <= |targets|
        invariant stream.Contents() == (base + head) + EncodeDepths(targets[..i])
      {
        WriteU32Leb(targets[i]);
        DepthsSnoc(targets, i);
        Joined(base + head, EncodeDepths(targets[..i]), ULeb(targets[i]));
        i := i + 1;
      }
      assert targets[..|targets|] == targets;
      WriteU32Leb(default);
      TableJoined(base, ULeb(|targets|), EncodeDepths(targets), ULeb(default));
    }

    static lemma TableJoined(base: seq<Byte>, n: seq<Byte>, ds: seq<Byte>, d: seq<Byte>)
      ensures ((base + ([0x0e] + n)) + ds) + d == base + ([0x0e] + (n + (ds + d)))
    {
    }

    static lemma NoDepths(targets: seq<nat>)
      ensures EncodeDepths(targets[..0]) == []
    {
    }

    method WriteConst(ty: Type, v: Word)
      requires Valid() && ty != Any
      modifies stream
      ensures Valid() && stream.Contents() == old(stream.Contents()) + EncodeConst(ty, v)
    {
      hide SLeb, Signed32, Signed64, U32;
      ghost var base := stream.Contents();
      match ty {
        case I32 =>
          WriteOpcode(0x41);
          WriteS32Leb(Signed32(v));
          Joined(base, [0x41], SLeb(Signed32(v)));
        case I64 =>
          WriteOpcode(0x42);
          WriteS32Leb(Signed64(v));
          Joined(base, [0x42], SLeb(Signed64(v)));
        case F32 =>
          WriteOpcode(0x43);
          stream.WriteData(U32(v));
          Joined(base, [0x43], U32(v));
        case F64 =>
          WriteOpcode(0x44);
          stream.WriteData(U32(v) + U32(v / TWO_32));
          Joined(base, [0x44], U32(v) + U32(v / TWO_32));
      }
    }

    method WriteOp(op: Op)
      requires Valid() && OpOk(op)
      modifies stream
      ensures Valid() && stream.Contents() == old(stream.Contents()) + EncodeOp(op)
    {
      hide ULeb, EncodeConst;
      match op
      case Const(ty, v) => WriteConst(ty, v);
      case Binary(bin) => WriteOpcode(BinOpcode(bin));
      case Drop => WriteOpcode(0x1a);
      case Select => WriteOpcode(0x1b);
      case Nop => WriteOpcode(0x01);
      case LocalGet(x) => WriteIndexed(0x20, x);
      case LocalSet(x) => WriteIndexed(0x21, x);
      case LocalTee(x) => WriteIndexed(0x22, x);
      case GlobalGet(g) => WriteIndexed(0x23, g);
      case GlobalSet(g) => WriteIndexed(0x24, g);
    }

    method WriteLeaf(e: Expr)
      requires Valid() && LeafOk(format, e)
      modifies stream
      ensures Valid() && stream.Contents() == old(stream.Contents()) + EncodeLeaf(e)
    {
      hide ULeb, EncodeOp, EncodeDepths, OpOk;
      match e
      case Simple(op) => WriteOp(op);
      case Br(d) => WriteIndexed(0x0c, d);
      case BrIf(d) => WriteIndexed(0x0d, d);
      case BrTable(targets, default) => WriteBrTable(targets, default);
      case Return => WriteOpcode(0x0f);
      case Call(f) => WriteIndexed(0x10, f);
      case Unreachable => WriteOpcode(0x00);
    }

    method WriteExprList(es: ExprList)
      requires Valid() && ListOk(format, es)
      modifies stream
      ensures Valid() && stream.Contents() == old(stream.Contents()) + EncodeTokens(format, ListTokens(es))
      decreases es, 0
    {
      hide EncodeTokens, ExprTokens, ExprOk, ListTokens;
      ghost var base := stream.Contents();
      var rest := es;
      ghost var done: seq<Token> := [];
      NoTokens(format);
      assert base == base + [] && done + ListTokens(es) == ListTokens(es);
      while rest.Cons?
        invariant Valid() && ListOk(format, rest) && done + ListTokens(rest) == ListTokens(es)
        invariant stream.Contents() == base + EncodeTokens(format, done)
        invariant rest == es || rest < es
        decreases rest
      {
        WriteExpr(rest.head);
        EncodeAppend(format, done, ExprTokens(rest.head));
        Joined(base, EncodeTokens(format, done), EncodeTokens(format, ExprTokens(rest.head)));
        NextTokens(done, rest);
        done := done + ExprTokens(rest.head);
        rest := rest.tail;
      }
      AllTokens(done);
    }

    static lemma NextTokens(done: seq<Token>, rest: ExprList)
      requires rest.Cons?
      ensures done + ListTokens(rest) == (done + ExprTokens(rest.head)) + ListTokens(rest.tail)
    {
    }

    static lemma AllTokens(done: seq<Token>)
      ensures done + ListTokens(Nil) == done
    {
    }

    method WriteExpr(e: Expr)
      requires Valid() && ExprOk(format, e)
      modifies stream
      ensures Valid() && stream.Contents() == old(stream.Contents()) + EncodeTokens(format, ExprTokens(e))
      decreases e, 1
    {
      hide EncodeTokens, LeafOk, BlockSigOk, EncodeLeaf;
      match e
      case Block(sig, body) => WriteNest(BlockLabel, sig, body);
      case Loop(sig, body) => WriteNest(LoopLabel, sig, body);
      case If(sig, thn, hasElse, els) => WriteIf(sig, thn, hasElse, els);
      case _ =>
        WriteLeaf(e);
        OneToken(format, e);
    }

    method WriteNest(kind: Kind, sig: Sig, body: ExprList)
      requires Valid() && BlockSigOk(format, sig) && ListOk(format, body)
      modifies stream
      ensures Valid()
      ensures stream.Contents()
           == old(stream.Contents()) + EncodeTokens(format, [Open(kind, sig)] + (ListTokens(body) + [EndToken]))
      decreases body, 1
    {
      hide EncodeTokens, EncodeToken, BlockSigOk;
      ghost var base, open, inner := stream.Contents(), EncodeToken(format, Open(kind, sig)), ListTokens(body);
      WriteOpen(kind, sig);
      WriteExprList(body);
      WriteOpcode(0x0b);
      NestTokens(format, Open(kind, sig), inner);
      assert ((base + open) + EncodeTokens(format, inner)) + [0x0b] == base
             + (open + (EncodeTokens(format, inner) + [0x0b]));
    }

    method WriteIf(sig: Sig, thn: ExprList, hasElse: bool, els: ExprList)
      requires Valid() && ExprOk(format, If(sig, thn, hasElse, els))
      modifies stream
      ensures Valid()
      ensures stream.Contents() == old(stream.Contents()) + EncodeTokens(format, ExprTokens(If(sig, thn, hasElse, els)))
      decreases If(sig, thn, hasElse, els), 0
    {
      hide EncodeTokens, EncodeToken, BlockSigOk, ListTokens;
      ghost var base, open := stream.Contents(), EncodeToken(format, Open(IfLabel, sig));
      ghost var first: seq<Token>, second: seq<Token> := ListTokens(thn), [];
      WriteOpen(IfLabel, sig);
      WriteExprList(thn);
      NoTokens(format);
      ghost var mid := (base + open) + EncodeTokens(format, first);
      assert mid == mid + [];
      if hasElse && els.Cons? {
        WriteOpcode(0x05);
        WriteExprList(els);
        second := [ElseToken] + ListTokens(els);
        ElseOpens(format, ListTokens(els));
        Joined(mid, [0x05], EncodeTokens(format, ListTokens(els)));
      }
      assert stream.Contents() == mid + EncodeTokens(format, second);
      WriteOpcode(0x0b);
      EncodeAppend(format, first, second);
      NestTokens(format, Open(IfLabel, sig), first + second);
      assert (first + second) + [EndToken] == first + (second + [EndToken]);
      assert (mid + EncodeTokens(format, second)) + [0x0b]
          == base + (open + ((EncodeTokens(format, first) + EncodeTokens(format, second)) + [0x0b]));
    }

    static lemma NoTokens(f: Format)
      ensures EncodeTokens(f, []) == []
    {
    }

    /** `LocalTypes::size` is what decides. */
    method WriteFuncLocals(decls: seq<LocalDecl>)
      requires Valid()
      modifies stream
      ensures Valid() && stream.Contents() == old(stream.Contents()) + EncodeLocals(decls)
    {
      hide ULeb, SLeb, TypeCode, EncodeDecls;
      var size := LocalCount(decls);
      if size == 0 {
        WriteU32Leb(0);
        return;
      }
      ghost var base := stream.Contents() + ULeb(|decls|);
      WriteU32Leb(|decls|);
      NoDeclsYet(decls);
      assert base == base + [];
      var i := 0;
      while i < |decls|
        invariant Valid() && i <= |decls| && stream.Contents() == base + EncodeDecls(decls[..i])
      {
        WriteU32Leb(decls[i].count);
        WriteS32Leb(TypeCode(decls[i].ty));
        DeclsSnoc(decls, i);
        assert ((base + EncodeDecls(decls[..i])) + ULeb(decls[i].count)) + SLeb(TypeCode(decls[i].ty))
            == base + (EncodeDecls(decls[..i]) + (ULeb(decls[i].count) + SLeb(TypeCode(decls[i].ty))));
        i := i + 1;
      }
      assert decls[..|decls|] == decls;
      Joined(old(stream.Contents()), ULeb(|decls|), EncodeDecls(decls));
    }

    static lemma NoDeclsYet(decls: seq<LocalDecl>)
      ensures EncodeDecls(decls[..0]) == []
    {
    }

    method WriteFunc(c: Code)
      requires Valid() && ListOk(format, c.body)
      modifies stream
      ensures Valid() && stream.Contents() == old(stream.Contents()) + EncodeFunc(format, c)
    {
      hide EncodeLocals, EncodeTokens, ListTokens, ListOk;
      ghost var base := stream.Contents();
      WriteFuncLocals(c.decls);
      WriteExprList(c.body);
      WriteOpcode(0x0b);
      EncodeAppend(format, ListTokens(c.body), [EndToken]);
      EndByte(format);
      assert ((base + EncodeLocals(c.decls)) + EncodeTokens(format, ListTokens(c.body))) + [0x0b]
          == base + (EncodeLocals(c.decls) + (EncodeTokens(format, ListTokens(c.body)) + [0x0b]));
    }

    static lemma EndByte(f: Format)
      ensures EncodeTokens(f, [EndToken]) == [0x0b]
    {
      assert [EndToken][1..] == [];
    }

    /** One body: room for its size, the body, the size. */
    method WriteSizedFunc(c: Code)
      requires Valid() && ListOk(format, c.body)
      modifies stream
      ensures Valid()
      ensures stream.Contents()
           == old(stream.Contents()) + (SizeLeb(sizes.canonicalizeLebs, |EncodeFunc(format, c)|)
                                        + EncodeFunc(format, c))
    {
      hide EncodeFunc, SizeLeb, ListOk;
      ghost var base := stream.Contents();
      var at := sizes.WriteU32Leb128Space(1);
      WriteFunc(c);
      Behind(base, NoBytes(Room(sizes.canonicalizeLebs, 1)), EncodeFunc(format, c));
      var _ := sizes.WriteFixupU32Leb128Size(at, 1);
    }

    /** `BeginKnownSection`, the bodies, `EndSection`. */
    method WriteCodeSection(cs: seq<Code>)
      requires Valid() && forall k :: 0 <= k < |cs| ==> ListOk(format, cs[k].body)
      modifies stream
      ensures Valid()
      ensures stream.Contents() == old(stream.Contents()) + EncodeCodeSection(format, sizes.canonicalizeLebs, cs)
    {
      hide EncodeFunc, SizeLeb, ListOk, ULeb, EncodeFuncs;
      ghost var base := stream.Contents() + [CODE_SECTION];
      ghost var canonical, room := sizes.canonicalizeLebs, NoBytes(Room(sizes.canonicalizeLebs, 1));
      WriteOpcode(CODE_SECTION);
      var at := sizes.WriteU32Leb128Space(1);
      WriteU32Leb(|cs|);
      NoFuncs(format, canonical, cs);
      assert (base + room) + ULeb(|cs|) == (base + room) + (ULeb(|cs|) + []);
      var i := 0;
      while i < |cs|
        invariant Valid() && i <= |cs|
        invariant stream.Contents() == (base + room) + (ULeb(|cs|) + EncodeFuncs(format, canonical, cs[..i]))
      {
        WriteSizedFunc(cs[i]);
        FuncsSnoc(format, canonical, cs, i);
        ghost var one := SizeLeb(canonical, |EncodeFunc(format, cs[i])|) + EncodeFunc(format, cs[i]);
        assert ((base + room) + (ULeb(|cs|) + EncodeFuncs(format, canonical, cs[..i]))) + one
            == (base + room) + (ULeb(|cs|) + (EncodeFuncs(format, canonical, cs[..i]) + one));
        i := i + 1;
      }
      assert cs[..|cs|] == cs;
      ghost var payload := CodePayload(format, canonical, cs);
      Behind(base, room, payload);
      var _ := sizes.WriteFixupU32Leb128Size(at, 1);
      Joined(old(stream.Contents()), [CODE_SECTION], SizeLeb(canonical, |payload|) + payload);
    }

    static lemma NoFuncs(f: Format, canonical: bool, cs: seq<Code>)
      ensures EncodeFuncs(f, canonical, cs[..0]) == []
    {
    }
  }
}
