/** Writer and reader together. */
module CodeRoundTrip {
  import opened Syntax
  import opened Bytecode
  import opened Leb128
  import opened SizeFixup
  import opened BinaryFormat
  import opened FunctionBody
  import opened CodeSection
  import opened Sections
  import opened BinaryWriterClass
  import opened IRBuilder
  import opened BinaryReaderClass

  lemma AllOfIt(c: seq<Byte>, data: seq<Byte>, none: seq<Byte>)
    requires data == none + c && none == []
    ensures CodeAt(data, 0, c)
  {
    assert data[0..0 + |c|] == c;
  }

  /** A code section alone is a sequence of sections in order. */
  lemma OneSection(s: Setting, f: Format, p: seq<Byte>) returns (code: Section)
    requires ReadCodeSection(f, p, 0).CodeRead? && ReadCodeSection(f, p, 0).next == |p|
    ensures SectionsAre(s, p, 0, [code]) && code.kind == CODE_SECTION && code.end <= |p|
    ensures ReadCodePayload(f, p, code.start, code.end) == ReadCodeSection(f, p, 0)
  {
    hide ReadCodePayload, ReadU32Leb, IsNames;
    code := ReadHeader(p, 0, |p|).value;
    PayloadFills(f, p, code.start, code.end);
    assert Chain(p, |p|, 0, [code], |p|) by { assert [code][1..] == [] && Chain(p, |p|, code.end, [], |p|); }
    assert InSequence(s, p, [code][..0], code);
  }

  /** Writing functions and reading the bytes back into a new builder gives the same declarations and trees,
      in both size modes and whatever the reader's options are. */
  method WriteThenRead(f: Format, canonicalizeLebs: bool, s: Setting, cs: seq<Code>)
    returns (ok: bool, reader: BinaryReader)
    requires |cs| == f.funcs < TWO_32 && forall k :: 0 <= k < |cs| ==> CodeOk(f, cs[k])
    requires |CodePayload(f, canonicalizeLebs, cs)| < TWO_32 && s.Bounded()
    ensures ok && reader.Valid() && reader.offset == |reader.data|
    ensures reader.FuncsHold([], CanonCodes(cs))
  {
    hide CodePayload, EncodeCodeSection, ReadCodeSection, ReadCodePayload, ListOk, CanonCodes, StackIs, ListIs,
         ListHolds;
    hide AllInSequence, Chain, ReadHeader;
    var stream := new MemoryStream();
    var writer := new BinaryWriter(stream, f, canonicalizeLebs);
    writer.WriteCodeSection(cs);
    var data := stream.data[..stream.offset];
    AllOfIt(EncodeCodeSection(f, canonicalizeLebs, cs), data, []);
    CodeSectionBack(f, canonicalizeLebs, cs, data, 0);
    ghost var code := OneSection(s, f, data);
    var ir := new BinaryReaderIR();
    reader := new BinaryReader(data, f, s, ir);
    ghost var read;
    ok, read := reader.ReadSections();
    assert reader.AllAccepted([code]);
    SectionsUnique(s, data, 0, read, [code]);
    assert reader.CodeHeld([], read[0]);
  }
}
