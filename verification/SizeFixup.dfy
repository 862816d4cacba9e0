/** Sizes that are only known afterwards: the writer leaves room for a LEB128, writes the contents,
    and comes back - moving the contents when the room was a wrong guess. */
module SizeFixup {
  import opened Syntax
  import opened Bytecode
  import opened Leb128

  function Max(a: nat, b: nat): nat {
    if a < b then b else a
  }

  function NoBytes(n: nat): (r: seq<Byte>)
    ensures |r| == n && forall i :: 0 <= i < n ==> r[i] == 0
  {
    seq(n, _ => 0)
  }

  /** `std::vector::resize`, only ever to grow. */
  function Enlarged(data: seq<Byte>, n: nat): (r: seq<Byte>)
    ensures |r| == Max(|data|, n) && r[..|data|] == data
  {
    if n <= |data| then data else data + NoBytes(n - |data|)
  }

  class MemoryStream {
    var data: seq<Byte>
    var offset: nat

    ghost predicate Valid()
      reads this
    {
      offset <= |data|
    }

    /** What has been written so far. Behind it there may be leftovers. */
    ghost function Contents(): seq<Byte>
      requires Valid()
      reads this
    {
      data[..offset]
    }

    constructor ()
      ensures Valid() && Contents() == []
    {
      data, offset := [], 0;
    }

    method WriteDataAt(at: nat, src: seq<Byte>)
      requires at <= |data|
      modifies this`data
      ensures |data| == Max(|old(data)|, at + |src|)
      ensures data[..at] == old(data)[..at] && data[at..at + |src|] == src
      ensures at + |src| <= |old(data)| ==> data[at + |src|..] == old(data)[at + |src|..]
    {
      if |src| == 0 {
        return;
      }
      data := Enlarged(data, at + |src|);
      data := data[..at] + src + data[at + |src|..];
      assert data[at + |src|..] == Enlarged(old(data), at + |src|)[at + |src|..];
    }

    method WriteData(src: seq<Byte>)
      requires Valid()
      modifies this
      ensures Valid() && Contents() == old(Contents()) + src
    {
      WriteDataAt(offset, src);
      offset := offset + |src|;
      assert data[..offset] == data[..old(offset)] + data[old(offset)..offset];
    }

    /** `memmove`: the source is read before anything is written. */
    method MoveData(dst: nat, src: nat, size: nat)
      requires src + size <= |data|
      modifies this`data
      ensures |data| == if size == 0 then |old(data)| else Max(|old(data)|, dst + size)
      ensures forall n :: 0 <= n <= dst && n <= |old(data)| ==> data[..n] == old(data)[..n]
      ensures dst + size <= |data| ==> data[dst..dst + size] == old(data)[src..src + size]
    {
      if size == 0 {
        return;
      }
      var moved := data[src..src + size];
      data := Enlarged(data, dst + size);
      data := data[..dst] + moved + data[dst + size..];
    }

    method AddOffset(delta: int)
      requires 0 <= offset + delta
      modifies this`offset
      ensures offset == old(offset) + delta
    {
      offset := offset + delta;
    }
  }

  /** The size of a stretch of bytes as it is finally written. */
  function SizeLeb(canonical: bool, size: nat): (r: seq<Byte>)
    ensures |r| >= 1
  {
    if canonical then ULeb(size) else FixedULeb(size)
  }

  /** Room for the size: the guess, or always five bytes. */
  function Room(canonical: bool, guess: nat): nat {
    if canonical then guess else 5
  }

  /** A stretch of output with its size in front, and so on inside. */
  datatype Part = Raw(bytes: seq<Byte>) | Sized(guess: nat, inner: PartList)

  datatype PartList = NoParts | PartCons(head: Part, tail: PartList)

  function Encoded(canonical: bool, p: Part): seq<Byte> {
    match p
    case Raw(bytes) => bytes
    case Sized(_, inner) => SizeLeb(canonical, |EncodedList(canonical, inner)|) + EncodedList(canonical, inner)
  }

  function EncodedList(canonical: bool, ps: PartList): seq<Byte> {
    match ps
    case NoParts => []
    case PartCons(h, t) => Encoded(canonical, h) + EncodedList(canonical, t)
  }

  class SizeWriter {
    const stream: MemoryStream
    const canonicalizeLebs: bool

    constructor (s: MemoryStream, canonical: bool)
      ensures stream == s && canonicalizeLebs == canonical
    {
      stream, canonicalizeLebs := s, canonical;
    }

    method WriteU32Leb128Space(guess: nat) returns (at: nat)
      requires stream.Valid() && guess <= 5
      modifies stream
      ensures stream.Valid() && at == old(stream.offset)
      ensures stream.Contents() == old(stream.Contents()) + NoBytes(Room(canonicalizeLebs, guess))
    {
      at := stream.offset;
      stream.WriteData(NoBytes(Room(canonicalizeLebs, guess)));
    }

    /** Whatever the guess was, the size ends up directly in front of the contents. */
    method WriteFixupU32Leb128Size(at: nat, guess: nat) returns (delta: int)
      requires stream.Valid() && guess <= 5
      requires at + Room(canonicalizeLebs, guess) <= stream.offset
      modifies stream
      ensures stream.Valid()
      ensures var before := old(stream.Contents());
              var body := before[at + Room(canonicalizeLebs, guess)..];
              && stream.Contents() == before[..at] + (SizeLeb(canonicalizeLebs, |body|) + body)
              && delta == |stream.Contents()| - |before|
    {
      hide ULeb, FixedULeb;
      if canonicalizeLebs {
        delta := FixupCanonical(at, guess);
      } else {
        FixupFixed(at);
        delta := 0;
      }
    }

    method FixupCanonical(at: nat, guess: nat) returns (delta: int)
      requires stream.Valid() && at + guess <= stream.offset
      modifies stream
      ensures stream.Valid()
      ensures var before := old(stream.Contents());
              var body := before[at + guess..];
              stream.Contents() == before[..at] + (ULeb(|body|) + body) && delta == |stream.Contents()| - |before|
    {
      hide ULeb;
      var size := stream.offset - at - guess;
      ghost var pre, body := stream.data[..at], stream.data[at + guess..stream.offset];
      assert stream.Contents()[..at] == pre && stream.Contents()[at + guess..] == body;
      var lebSize := U32Leb128Length(size);
      delta := lebSize - guess;
      if delta != 0 {
        stream.MoveData(at + lebSize, at + guess, size);
      }
      var leb := WriteU32Leb128(size);
      assert stream.data[..at] == pre;
      PutSize(at, leb, body, pre);
      stream.AddOffset(delta);
    }

    method FixupFixed(at: nat)
      requires stream.Valid() && at + 5 <= stream.offset
      modifies stream
      ensures stream.Valid()
      ensures var before := old(stream.Contents());
              var body := before[at + 5..];
              stream.Contents() == before[..at] + (FixedULeb(|body|) + body) && |stream.Contents()| == |before|
    {
      hide FixedULeb;
      var size := stream.offset - at - 5;
      ghost var pre, body := stream.data[..at], stream.data[at + 5..stream.offset];
      assert stream.Contents()[..at] == pre && stream.Contents()[at + 5..] == body;
      PutSize(at, FixedULeb(size), body, pre);
    }

    /** The size over its room, with the contents already behind it. */
    method PutSize(at: nat, leb: seq<Byte>, ghost body: seq<Byte>, ghost pre: seq<Byte>)
      requires leb != [] && at <= |stream.data| && stream.data[..at] == pre
      requires body == [] || (at + |leb| + |body| <= |stream.data|
                              && stream.data[at + |leb|..at + |leb| + |body|] == body)
      modifies stream`data
      ensures at + |leb| + |body| <= |stream.data|
      ensures stream.data[..at + |leb| + |body|] == pre + (leb + body)
    {
      ghost var moved := stream.data;
      stream.WriteDataAt(at, leb);
      if body != [] {
        FixedUp(stream.data, moved, at, leb, body);
      } else {
        assert stream.data[..at + |leb|] == stream.data[..at] + stream.data[at..at + |leb|];
      }
    }

    /** Any properly nested sequence of reservations and fixups leaves the nested encoding. */
    method WriteParts(ps: PartList)
      requires stream.Valid() && GuessesFit(ps)
      modifies stream
      ensures stream.Valid() && stream.Contents() == old(stream.Contents()) + EncodedList(canonicalizeLebs, ps)
      decreases ps
    {
      hide ULeb, FixedULeb, SizeLeb;
      match ps
      case NoParts => assert old(stream.Contents()) + [] == old(stream.Contents());
      case PartCons(h, t) =>
        ghost var before := stream.Contents();
        match h {
          case Raw(bytes) => stream.WriteData(bytes);
          case Sized(guess, inner) =>
            var at := WriteU32Leb128Space(guess);
            WriteParts(inner);
            ghost var room, body := NoBytes(Room(canonicalizeLebs, guess)), EncodedList(canonicalizeLebs, inner);
            Behind(before, room, body);
            var _ := WriteFixupU32Leb128Size(at, guess);
        }
        assert stream.Contents() == before + Encoded(canonicalizeLebs, h);
        WriteParts(t);
        assert (before + Encoded(canonicalizeLebs, h)) + EncodedList(canonicalizeLebs, t)
            == before + EncodedList(canonicalizeLebs, ps);
    }
  }

  predicate GuessesFit(ps: PartList) {
    match ps
    case NoParts => true
    case PartCons(Raw(_), t) => GuessesFit(t)
    case PartCons(Sized(guess, inner), t) => guess <= 5 && GuessesFit(inner) && GuessesFit(t)
  }

  lemma Behind(a: seq<Byte>, b: seq<Byte>, c: seq<Byte>)
    ensures ((a + b) + c)[..|a|] == a && ((a + b) + c)[|a| + |b|..] == c
  {
  }

  lemma FixedUp(data: seq<Byte>, moved: seq<Byte>, at: nat, leb: seq<Byte>, body: seq<Byte>)
    requires at + |leb| + |body| <= |moved| == |data|
    requires data[..at] == moved[..at] && data[at..at + |leb|] == leb && data[at + |leb|..] == moved[at + |leb|..]
    requires moved[at + |leb|..at + |leb| + |body|] == body
    ensures data[..at + |leb| + |body|] == moved[..at] + (leb + body)
  {
    var n := at + |leb|;
    assert data[n..n + |body|] == data[n..][..|body|] == moved[n..][..|body|] == moved[n..n + |body|];
    assert data[..n + |body|] == data[..at] + data[at..n] + data[n..n + |body|];
  }
}
