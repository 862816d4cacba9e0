/** Sections one after another, and name subsections one after another: a kind, a size, that many bytes. */
module Sections {
  import opened Syntax
  import opened Bytecode
  import opened Leb128
  import opened BinaryFormat
  import opened CodeSection

  datatype Section = Section(kind: nat, start: nat, end: nat)

  // `BinarySection` and `NameSectionSubsection`
  const CUSTOM := 0
  const SECTION_COUNT := 12
  const INVALID_SECTION := 12
  const SUBSECTION_COUNT := 3

  const NAME_SECTION: seq<Byte> := [0x6e, 0x61, 0x6d, 0x65]
  const RELOC_PREFIX: seq<Byte> := [0x72, 0x65, 0x6c, 0x6f, 0x63]
  const LINKING_SECTION: seq<Byte> := [0x6c, 0x69, 0x6e, 0x6b, 0x69, 0x6e, 0x67]
  const EXCEPTION_SECTION: seq<Byte> := [0x65, 0x78, 0x63, 0x65, 0x70, 0x74, 0x69, 0x6f, 0x6e]

  /** `ReadBinaryOptions`, and what is not modelled here: the contents of the other sections, of the custom
      sections that are read and of the name subsections. Each of those readers gets its bounds and either
      fails or says where it stopped. For given bytes that is a function of where it starts, because the
      sections before it are given. */
  datatype Setting = Setting(
    readDebugNames: bool, stopOnFirstError: bool, failOnCustom: bool, exceptions: bool,
    known: (nat, nat, nat) -> Option<nat>, custom: (seq<Byte>, nat, nat) -> Option<nat>,
    subsection: (nat, nat, nat) -> Option<nat>, validUtf8: seq<Byte> -> bool)
  {
    /** Every one of those readers checks `read_end_` before it takes a byte. */
    ghost predicate Bounded() {
      && (forall k: nat, s: nat, e: nat :: s <= e && known(k, s, e).Some? ==> s <= known(k, s, e).value <= e)
      && (forall n: seq<Byte>, s: nat, e: nat :: s <= e && custom(n, s, e).Some? ==> s <= custom(n, s, e).value <= e)
      && (forall k: nat, s: nat, e: nat :: s <= e && subsection(k, s, e).Some? ==> s <= subsection(k, s, e).value <= e)
    }
  }

  /** How `ReadSections` goes on after a section. */
  datatype SectionStatus = Good | Bad | Stop

  // ----- Frames -----------------------------------------------------------------------------------------------

  function ReadHeader(p: seq<Byte>, at: nat, end: nat): (r: Option<Section>)
    requires end <= |p|
    ensures r.Some? ==> at < r.value.start <= r.value.end <= end
  {
    match ReadU32Leb(p, at, end)
    case None => None
    case Some(kind) =>
      match ReadU32Leb(p, at + kind.size, end)
      case None => None
      case Some(size) =>
        var start := at + kind.size + size.size;
        if start + size.value > end then None else Some(Section(kind.value, start, start + size.value))
  }

  /** `frames` are the frames from `at` to `upTo`, without a byte between or left over. */
  predicate Chain(p: seq<Byte>, end: nat, at: nat, frames: seq<Section>, upTo: nat)
    requires end <= |p|
    decreases |frames|
  {
    if frames == [] then at == upTo
    else ReadHeader(p, at, end) == Some(frames[0]) && Chain(p, end, frames[0].end, frames[1..], upTo)
  }

  lemma {:induction false} ChainGrows(p: seq<Byte>, end: nat, at: nat, frames: seq<Section>, upTo: nat, f: Section)
    requires end <= |p| && Chain(p, end, at, frames, upTo) && ReadHeader(p, upTo, end) == Some(f)
    ensures Chain(p, end, at, frames + [f], f.end)
    decreases |frames|
  {
    hide ReadHeader;
    if frames == [] {
      assert (frames + [f])[1..] == [];
    } else {
      ChainGrows(p, end, frames[0].end, frames[1..], upTo, f);
      assert (frames + [f])[1..] == frames[1..] + [f];
    }
  }

  lemma NoSections(p: seq<Byte>, end: nat, at: nat)
    requires end <= |p|
    ensures Chain(p, end, at, [], at)
  {
  }

  /** Any chain to the end starts with the frames that were read, and goes on with the next header. */
  lemma {:induction false} NextSection(p: seq<Byte>, end: nat, at: nat, frames: seq<Section>, upTo: nat,
                                       all: seq<Section>)
    requires end <= |p| && Chain(p, end, at, frames, upTo) && Chain(p, end, at, all, end)
    ensures frames <= all
    ensures upTo < end ==> |frames| < |all| && ReadHeader(p, upTo, end) == Some(all[|frames|])
    ensures upTo == end ==> frames == all
    decreases |frames|
  {
    if frames == [] {
    } else {
      NextSection(p, end, frames[0].end, frames[1..], upTo, all[1..]);
      assert frames == [frames[0]] + frames[1..];
      assert all == [all[0]] + all[1..];
    }
  }

  // ----- The name section ---------------------------------------------------------------------------------------

  predicate Increasing(frames: seq<Section>) {
    forall i, j :: 0 <= j < i < |frames| ==> frames[j].kind < frames[i].kind
  }

  /** Unknown kinds are skipped, empty subsections have nothing to read. */
  predicate SubsectionOk(s: Setting, f: Section) {
    f.kind >= SUBSECTION_COUNT || f.start == f.end || s.subsection(f.kind, f.start, f.end) == Some(f.end)
  }

  predicate NamesAre(s: Setting, p: seq<Byte>, at: nat, end: nat, frames: seq<Section>)
    requires end <= |p|
  {
    Chain(p, end, at, frames, end) && Increasing(frames) && forall i :: 0 <= i < |frames| ==> SubsectionOk(s, frames[i])
  }

  ghost predicate NamesOk(s: Setting, p: seq<Byte>, at: nat, end: nat)
    requires end <= |p|
  {
    exists frames :: NamesAre(s, p, at, end, frames)
  }

  // ----- Custom sections ------------------------------------------------------------------------------------------

  /** `ReadStr` */
  function ReadStr(s: Setting, p: seq<Byte>, at: nat, end: nat): (r: Option<ReadResult<seq<Byte>>>)
    requires end <= |p|
    ensures r.Some? ==> at < r.value.next <= end
  {
    match ReadU32Leb(p, at, end)
    case None => None
    case Some(n) =>
      var start := at + n.size;
      if start + n.value > end || !s.validUtf8(p[start..start + n.value]) then None
      else Some(ReadResult(p[start..start + n.value], start + n.value))
  }

  predicate HasContents(s: Setting, name: seq<Byte>) {
    RELOC_PREFIX <= name || name == LINKING_SECTION || (s.exceptions && name == EXCEPTION_SECTION)
  }

  /** Where `ReadCustomSection` stops. */
  ghost function CustomEnd(s: Setting, p: seq<Byte>, f: Section): Option<nat>
    requires f.end <= |p|
  {
    match ReadStr(s, p, f.start, f.end)
    case None => None
    case Some(name) =>
      if s.readDebugNames && name.value == NAME_SECTION then
        if NamesOk(s, p, name.next, f.end) then Some(f.end) else None
      else if HasContents(s, name.value) then s.custom(name.value, name.next, f.end)
      else Some(f.end)
  }

  /** A name section that was read to its end. */
  ghost predicate IsNames(s: Setting, p: seq<Byte>, f: Section)
    requires f.end <= |p|
  {
    && f.kind == CUSTOM && s.readDebugNames && CustomEnd(s, p, f).Some?
    && ReadStr(s, p, f.start, f.end).value.value == NAME_SECTION
  }

  // ----- The module -------------------------------------------------------------------------------------------------

  predicate AllInside(p: seq<Byte>, frames: seq<Section>) {
    forall i :: 0 <= i < |frames| ==> frames[i].end <= |p|
  }

  /** Known sections appear once and in order, and none of them after the name section. */
  ghost predicate InSequence(s: Setting, p: seq<Byte>, before: seq<Section>, f: Section)
    requires AllInside(p, before)
  {
    && f.kind < SECTION_COUNT
    && (f.kind != CUSTOM ==>
          forall i :: 0 <= i < |before| ==> before[i].kind < f.kind && !IsNames(s, p, before[i]))
  }

  ghost predicate AllInSequence(s: Setting, p: seq<Byte>, frames: seq<Section>)
    requires AllInside(p, frames)
  {
    forall i :: 0 <= i < |frames| ==> InSequence(s, p, frames[..i], frames[i])
  }

  /** The reader of this section takes exactly its bytes; a custom section may also fail if that is allowed. */
  ghost predicate Accepted(s: Setting, fmt: Format, p: seq<Byte>, f: Section)
    requires f.end <= |p|
  {
    if f.kind == CUSTOM then
      if CustomEnd(s, p, f).Some? then CustomEnd(s, p, f).value == f.end else !s.failOnCustom
    else if f.kind == CODE_SECTION then ReadCodePayload(fmt, p, f.start, f.end).CodeRead?
    else s.known(f.kind, f.start, f.end) == Some(f.end)
  }

  /** Or it is a code section of which the specification says nothing. */
  ghost predicate Tolerated(s: Setting, fmt: Format, p: seq<Byte>, f: Section)
    requires f.end <= |p|
  {
    Accepted(s, fmt, p, f) || (f.kind == CODE_SECTION && ReadCodePayload(fmt, p, f.start, f.end).LeftOpen?)
  }

  /** The frames of a whole module. */
  ghost predicate SectionsAre(s: Setting, p: seq<Byte>, at: nat, frames: seq<Section>) {
    Chain(p, |p|, at, frames, |p|) && AllInside(p, frames) && AllInSequence(s, p, frames)
  }

  lemma HeaderInside(p: seq<Byte>, at: nat, end: nat)
    requires end <= |p|
    ensures var r := ReadHeader(p, at, end); r.Some? ==> r.value.start <= r.value.end <= end
  {
    hide ReadHeader;
  }

  lemma SequenceGrows(s: Setting, p: seq<Byte>, frames: seq<Section>, f: Section)
    requires AllInside(p, frames) && f.end <= |p| && AllInSequence(s, p, frames) && InSequence(s, p, frames, f)
    ensures AllInside(p, frames + [f]) && AllInSequence(s, p, frames + [f])
  {
    hide InSequence, IsNames;
    forall i | 0 <= i < |frames + [f]|
      ensures InSequence(s, p, (frames + [f])[..i], (frames + [f])[i])
    {
      if i < |frames| {
        assert (frames + [f])[..i] == frames[..i];
      } else {
        assert (frames + [f])[..i] == frames;
      }
    }
  }

  /** What `last_known_section_` and `did_read_names_section_` remember of the frames so far is enough. */
  ghost predicate Remembers(s: Setting, p: seq<Byte>, frames: seq<Section>, lastKnown: nat, names: bool)
    requires AllInside(p, frames)
  {
    && (forall i :: 0 <= i < |frames| ==> frames[i].kind == CUSTOM
                                          || (lastKnown != INVALID_SECTION && frames[i].kind <= lastKnown))
    && (lastKnown != INVALID_SECTION ==>
          lastKnown != CUSTOM && exists i :: 0 <= i < |frames| && frames[i].kind == lastKnown)
    && (names <==> exists i :: 0 <= i < |frames| && IsNames(s, p, frames[i]))
  }

  lemma SequenceChecked(s: Setting, p: seq<Byte>, frames: seq<Section>, lastKnown: nat, names: bool, f: Section)
    requires AllInside(p, frames) && Remembers(s, p, frames, lastKnown, names) && f.kind < SECTION_COUNT
    ensures InSequence(s, p, frames, f)
       <==> (lastKnown == INVALID_SECTION || f.kind == CUSTOM || f.kind > lastKnown) && (!names || f.kind == CUSTOM)
  {
    hide IsNames;
  }

  lemma UnknownKind(s: Setting, p: seq<Byte>, frames: seq<Section>, f: Section)
    requires AllInside(p, frames) && f.kind >= SECTION_COUNT
    ensures !InSequence(s, p, frames, f)
  {
  }

  lemma RemembersMore(s: Setting, p: seq<Byte>, frames: seq<Section>, lastKnown: nat, names: bool, f: Section)
    requires AllInside(p, frames) && f.end <= |p| && Remembers(s, p, frames, lastKnown, names)
    requires InSequence(s, p, frames, f)
    ensures AllInside(p, frames + [f])
    ensures Remembers(s, p, frames + [f], if f.kind == CUSTOM then lastKnown else f.kind, names || IsNames(s, p, f))
  {
    hide CustomEnd;
    var more := frames + [f];
    assert more[|frames|] == f;
    assert forall i :: 0 <= i < |frames| ==> more[i] == frames[i];
    if lastKnown != INVALID_SECTION {
      var i :| 0 <= i < |frames| && frames[i].kind == lastKnown;
      assert more[i].kind == lastKnown;
    }
    if names {
      var i :| 0 <= i < |frames| && IsNames(s, p, frames[i]);
      assert IsNames(s, p, more[i]);
    }
  }

  /** Where reading stops, no sections can be those of the module, or one of them is refused. */
  lemma SectionsStop(s: Setting, fmt: Format, p: seq<Byte>, start: nat, frames: seq<Section>, at: nat,
                     all: seq<Section>)
    requires at < |p| && Chain(p, |p|, start, frames, at) && AllInside(p, frames) && SectionsAre(s, p, start, all)
    requires var r := ReadHeader(p, at, |p|);
             r.None? || !InSequence(s, p, frames, r.value) || !Accepted(s, fmt, p, r.value)
    ensures exists i :: 0 <= i < |all| && !Accepted(s, fmt, p, all[i])
  {
    hide InSequence, Accepted, ReadHeader, Chain;
    NextSection(p, |p|, start, frames, at, all);
    assert all[..|frames|] == frames;
    assert !Accepted(s, fmt, p, all[|frames|]);
  }

  /** The frames of a module are determined by its bytes. */
  lemma SectionsUnique(s: Setting, p: seq<Byte>, at: nat, frames: seq<Section>, other: seq<Section>)
    requires SectionsAre(s, p, at, frames) && SectionsAre(s, p, at, other)
    ensures frames == other
  {
    hide AllInSequence, AllInside;
    NextSection(p, |p|, at, frames, |p|, other);
  }
}
