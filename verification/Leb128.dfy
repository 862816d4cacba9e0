/** LEB128 integers: the writers' loops, the readers' ladders, and that they undo each other. */
module Leb128 {
  import opened Syntax
  import opened Bytecode

  function Pow128(k: nat): (r: int)
    ensures r > 0
  {
    if k == 0 then 1 else 128 * Pow128(k - 1)
  }

  // ----- Writing --------------------------------------------------------------------------------------------

  /** The shortest unsigned encoding: seven bits a byte, the lowest first, the top bit of every byte but
      the last one set. */
  function ULeb(v: nat): (r: seq<Byte>)
    ensures |r| >= 1
  {
    if v < 128 then [v] else [v % 128 + 128] + ULeb(v / 128)
  }

  /** The shortest signed encoding: the last byte's bit 6 is the sign. */
  function SLeb(v: int): (r: seq<Byte>)
    ensures |r| >= 1
    decreases if v < 0 then -v else v
  {
    var rest := v / 128;
    if (rest == 0 && v % 128 < 64) || (rest == -1 && v % 128 >= 64) then [v % 128] else [v % 128 + 128] + SLeb(rest)
  }

  /** Always five bytes. */
  function FixedULeb(v: nat): (r: seq<Byte>)
    ensures |r| == 5
  {
    [v % 128 + 128, v / 128 % 128 + 128, v / 16384 % 128 + 128, v / 2097152 % 128 + 128, v / 268435456 % 16]
  }

  method U32Leb128Length(value: nat) returns (size: nat)
    ensures size == |ULeb(value)|
  {
    var v := value;
    v := v / 128;
    size := 1;
    while v != 0
      invariant |ULeb(value)| == if v == 0 then size else size + |ULeb(v)|
    {
      v := v / 128;
      size := size + 1;
    }
  }

  method WriteU32Leb128(value: nat) returns (data: seq<Byte>)
    ensures data == ULeb(value)
  {
    var v := value;
    data := [];
    while true
      invariant data + ULeb(v) == ULeb(value)
      decreases v
    {
      var byte := v % 128;
      if v / 128 == 0 {
        data := data + [byte];
        return;
      }
      assert ULeb(v) == [byte + 128] + ULeb(v / 128);
      data := data + [byte + 128];
      v := v / 128;
    }
  }

  /** The 32-bit and the 64-bit writer; the value is known to be in range. */
  method WriteSLeb128(value: int) returns (data: seq<Byte>)
    ensures data == SLeb(value)
  {
    hide SLeb;
    var v := value;
    data := [];
    while true
      invariant data + SLeb(v) == SLeb(value)
      invariant v < 0 <==> value < 0
      decreases if v < 0 then -v else v
    {
      SLebCons(v);
      SLebSigns(v);
      var byte := v % 128;
      var rest := v / 128;
      if (if value < 0 then rest == -1 && byte >= 64 else rest == 0 && byte < 64) {
        data := data + [byte];
        return;
      }
      SLebShrinks(v);
      AppendByte(data, byte + 128, SLeb(rest));
      data := data + [byte + 128];
      v := rest;
    }
  }

  lemma AppendByte(data: seq<Byte>, b: Byte, rest: seq<Byte>)
    ensures (data + [b]) + rest == data + ([b] + rest)
  {
  }

  /** The sign never changes on the way. */
  lemma SLebSigns(v: int)
    ensures v / 128 < 0 <==> v < 0
    ensures LastSigned(v) <==> if v < 0 then v / 128 == -1 && v % 128 >= 64 else v / 128 == 0 && v % 128 < 64
  {
  }

  // ----- Reading --------------------------------------------------------------------------------------------

  /** How many bytes up to the first one without its top bit, among the first `max` bytes before `end`;
      0 if there is none. */
  function LebLength(p: seq<Byte>, at: nat, end: nat, max: nat): (k: nat)
    requires end <= |p|
    ensures k <= max && (k > 0 ==> at + k <= end)
    decreases max
  {
    if max == 0 || at >= end then 0
    else if p[at] < 128 then 1
    else
      var k := LebLength(p, at + 1, end, max - 1);
      if k == 0 then 0 else k + 1
  }

  /** The low seven bits of `k` bytes. */
  function Digits(p: seq<Byte>, at: nat, k: nat): nat
    requires at + k <= |p|
    decreases k
  {
    if k == 0 then 0 else p[at] % 128 + 128 * Digits(p, at + 1, k - 1)
  }

  datatype Leb = Leb(value: nat, size: nat)

  /** `ReadU32Leb128`: the fifth byte may only hold the top four bits. */
  function ReadU32Leb(p: seq<Byte>, at: nat, end: nat): (r: Option<Leb>)
    requires end <= |p|
    ensures r.Some? ==> 1 <= r.value.size <= 5 && at + r.value.size <= end
  {
    var k := LebLength(p, at, end, 5);
    if k == 0 || (k == 5 && p[at + 4] >= 16) then None else Some(Leb(Digits(p, at, k), k))
  }

  /** The value of `k` bytes with the last one's bit 6 as the sign. */
  function SignExtended(p: seq<Byte>, at: nat, k: nat): int
    requires 1 <= k && at + k <= |p|
  {
    if p[at + k - 1] % 128 >= 64 then Digits(p, at, k) - Pow128(k) else Digits(p, at, k)
  }

  /** `ReadS32Leb128`: the bits of the fifth byte above bit 3 must repeat it. The result is the 32-bit
      pattern. */
  function ReadS32Leb(p: seq<Byte>, at: nat, end: nat): (r: Option<Leb>)
    requires end <= |p|
    ensures r.Some? ==> 1 <= r.value.size <= 5 && at + r.value.size <= end && r.value.value < TWO_32
  {
    var k := LebLength(p, at, end, 5);
    if k == 0 || (k == 5 && 8 <= p[at + 4] < 120) then None
    else Some(Leb(SignExtended(p, at, k) % TWO_32, k))
  }

  /** `ReadS64Leb128`: the tenth byte must be all sign. */
  function ReadS64Leb(p: seq<Byte>, at: nat, end: nat): (r: Option<Leb>)
    requires end <= |p|
    ensures r.Some? ==> 1 <= r.value.size <= 10 && at + r.value.size <= end && r.value.value < TWO_64
  {
    var k := LebLength(p, at, end, 10);
    if k == 0 || (k == 10 && p[at + 9] != 0 && p[at + 9] != 127) then None
    else Some(Leb(SignExtended(p, at, k) % TWO_64, k))
  }

  // ----- Round trips ----------------------------------------------------------------------------------------

  lemma CodeAtCons(p: seq<Byte>, at: nat, b: Byte, rest: seq<Byte>)
    requires CodeAt(p, at, [b] + rest)
    ensures p[at] == b && CodeAt(p, at + 1, rest)
  {
    CodeAtSplit(p, at, [b], rest);
    assert p[at] == p[at..at + 1][0];
  }

  lemma MulAssoc(a: nat, b: nat, c: nat)
    ensures a * (b * c) == (a * b) * c
  {
  }

  /** The last of `k` bytes bounds the number on both sides. */
  lemma {:induction false} DigitsBounds(p: seq<Byte>, at: nat, k: nat)
    requires 1 <= k && at + k <= |p|
    ensures var top := p[at + k - 1] % 128;
            Pow128(k - 1) * top <= Digits(p, at, k) < Pow128(k - 1) * (top + 1)
    decreases k
  {
    hide Pow128, Digits;
    DigitsStep(p, at, k);
    if k == 1 {
      PowOne();
    } else {
      var top := p[at + k - 1] % 128;
      DigitsBounds(p, at + 1, k - 1);
      PowStep(k - 1);
      MulAssoc(128, Pow128(k - 2), top);
      MulAssoc(128, Pow128(k - 2), top + 1);
    }
  }

  lemma DigitsStep(p: seq<Byte>, at: nat, k: nat)
    requires 1 <= k && at + k <= |p|
    ensures Digits(p, at, k) == p[at] % 128 + 128 * Digits(p, at + 1, k - 1)
    ensures k == 1 ==> Digits(p, at, k) == p[at] % 128
  {
  }

  lemma PowStep(k: nat)
    requires 1 <= k
    ensures Pow128(k) == 128 * Pow128(k - 1)
  {
  }

  lemma PowOne()
    ensures Pow128(0) == 1
  {
  }

  lemma PowFour()
    ensures Pow128(4) == 0x1000_0000 && Pow128(5) == 0x8_0000_0000
  {
    PowStep(1);
    PowStep(2);
    PowStep(3);
    PowStep(4);
    PowStep(5);
  }

  lemma PowNine()
    ensures Pow128(9) == 0x8000_0000_0000_0000 && Pow128(10) == 0x40_0000_0000_0000_0000
  {
    PowFour();
    PowStep(6);
    PowStep(7);
    PowStep(8);
    PowStep(9);
    PowStep(10);
  }

  /** One more byte in front. */
  lemma LengthStep(p: seq<Byte>, at: nat, end: nat, max: nat)
    requires end <= |p| && at < end && 0 < max
    ensures p[at] < 128 ==> LebLength(p, at, end, max) == 1
    ensures p[at] >= 128 && LebLength(p, at + 1, end, max - 1) > 0 ==>
              LebLength(p, at, end, max) == 1 + LebLength(p, at + 1, end, max - 1)
  {
  }

  lemma ULebCons(v: nat)
    ensures var none: seq<Byte> := [];
            ULeb(v) == if v < 128 then [v as Byte] + none else [(v % 128 + 128) as Byte] + ULeb(v / 128)
  {
  }

  lemma {:induction false} ULebDigits(p: seq<Byte>, at: nat, end: nat, v: nat, max: nat)
    requires end <= |p| && CodeAt(p, at, ULeb(v)) && at + |ULeb(v)| <= end && |ULeb(v)| <= max
    ensures LebLength(p, at, end, max) == |ULeb(v)|
    ensures Digits(p, at, |ULeb(v)|) == v
    ensures p[at + |ULeb(v)| - 1] < 128
    decreases v
  {
    hide CodeAt, ULeb, Digits, LebLength;
    ULebCons(v);
    LengthStep(p, at, end, max);
    if v < 128 {
      CodeAtCons(p, at, v, []);
      DigitsStep(p, at, 1);
    } else {
      CodeAtCons(p, at, v % 128 + 128, ULeb(v / 128));
      ULebDigits(p, at + 1, end, v / 128, max - 1);
      DigitsStep(p, at, |ULeb(v)|);
    }
  }

  lemma {:induction false} ULebSize(v: nat, k: nat)
    requires v < Pow128(k) && 1 <= k
    ensures |ULeb(v)| <= k
    decreases k
  {
    PowStep(k);
    if v >= 128 {
      if k == 1 {
        PowOne();
      }
      ULebSize(v / 128, k - 1);
    }
  }

  /** A written 32-bit number is read back, whatever follows it. */
  lemma ReadULeb(p: seq<Byte>, at: nat, end: nat, v: nat)
    requires v < TWO_32 && end <= |p| && CodeAt(p, at, ULeb(v)) && at + |ULeb(v)| <= end
    ensures |ULeb(v)| <= 5 && ReadU32Leb(p, at, end) == Some(Leb(v, |ULeb(v)|))
  {
    hide Pow128, Digits, LebLength, ULeb;
    PowFour();
    ULebSize(v, 5);
    ULebDigits(p, at, end, v, 5);
    DigitsBounds(p, at, |ULeb(v)|);
  }

  /** The five-byte form reads back as the same number. */
  lemma ReadFixedULeb(p: seq<Byte>, at: nat, end: nat, v: nat)
    requires v < TWO_32 && end <= |p| && CodeAt(p, at, FixedULeb(v)) && at + 5 <= end
    ensures ReadU32Leb(p, at, end) == Some(Leb(v, 5))
  {
    hide Digits, LebLength, CodeAt, FixedULeb;
    FixedBytes(p, at, v);
    FixedLength(p, at, end);
    FixedDigits(p, at, v % 128, v / 128 % 128, v / 16384 % 128, v / 2097152 % 128, v / 268435456 % 16);
    FixedSum(v);
  }

  lemma FixedBytes(p: seq<Byte>, at: nat, v: nat)
    requires CodeAt(p, at, FixedULeb(v))
    ensures at + 5 <= |p|
    ensures p[at] == v % 128 + 128 && p[at + 1] == v / 128 % 128 + 128 && p[at + 2] == v / 16384 % 128 + 128
    ensures p[at + 3] == v / 2097152 % 128 + 128 && p[at + 4] == v / 268435456 % 16
  {
    var f := FixedULeb(v);
    var q := p[at..at + 5];
    assert q == f;
    assert q[0] == p[at] && q[1] == p[at + 1] && q[2] == p[at + 2] && q[3] == p[at + 3] && q[4] == p[at + 4];
  }

  lemma FixedLength(p: seq<Byte>, at: nat, end: nat)
    requires at + 5 <= end <= |p|
    requires p[at] >= 128 && p[at + 1] >= 128 && p[at + 2] >= 128 && p[at + 3] >= 128 && p[at + 4] < 128
    ensures LebLength(p, at, end, 5) == 5
  {
    hide LebLength;
    LengthStep(p, at + 4, end, 1);
    LengthStep(p, at + 3, end, 2);
    LengthStep(p, at + 2, end, 3);
    LengthStep(p, at + 1, end, 4);
    LengthStep(p, at, end, 5);
  }

  lemma FixedDigits(p: seq<Byte>, at: nat, a: nat, b: nat, c: nat, d: nat, e: nat)
    requires at + 5 <= |p| && a < 128 && b < 128 && c < 128 && d < 128 && e < 128
    requires p[at] == a + 128 && p[at + 1] == b + 128 && p[at + 2] == c + 128 && p[at + 3] == d + 128 && p[at + 4] == e
    ensures Digits(p, at, 5) == a + 128 * (b + 128 * (c + 128 * (d + 128 * e)))
  {
    hide Digits;
    DigitsStep(p, at + 4, 1);
    DigitsStep(p, at + 3, 2);
    DigitsStep(p, at + 2, 3);
    DigitsStep(p, at + 1, 4);
    DigitsStep(p, at, 5);
  }

  lemma FixedSum(v: nat)
    requires v < TWO_32
    ensures var a := v / 128; var b := v / 16384; var c := v / 2097152; var d := v / 268435456;
            v == v % 128 + 128 * (a % 128 + 128 * (b % 128 + 128 * (c % 128 + 128 * (d % 16))))
  {
    var a, b, c, d := v / 128, v / 16384, v / 2097152, v / 268435456;
    assert a == 128 * b + a % 128;
    assert b == 128 * c + b % 128;
    assert c == 128 * d + c % 128;
  }

  // ----- Signed --------------------------------------------------------------------------------------------

  predicate LastSigned(v: int) {
    (v / 128 == 0 && v % 128 < 64) || (v / 128 == -1 && v % 128 >= 64)
  }

  lemma SLebCons(v: int)
    ensures var none: seq<Byte> := [];
            SLeb(v) == if LastSigned(v) then [(v % 128) as Byte] + none else [(v % 128 + 128) as Byte] + SLeb(v / 128)
  {
  }

  lemma SignStep(p: seq<Byte>, at: nat, k: nat)
    requires 2 <= k && at + k <= |p|
    ensures SignExtended(p, at, k) == p[at] % 128 + 128 * SignExtended(p, at + 1, k - 1)
  {
    hide Digits, Pow128;
    DigitsStep(p, at, k);
    PowStep(k);
  }

  lemma SignLast(p: seq<Byte>, at: nat, v: int)
    requires at < |p| && LastSigned(v) && p[at] == v % 128
    ensures SignExtended(p, at, 1) == v
  {
    hide Digits, Pow128;
    DigitsStep(p, at, 1);
    PowStep(1);
    PowOne();
  }

  lemma {:induction false} SLebDigits(p: seq<Byte>, at: nat, end: nat, v: int, max: nat)
    requires end <= |p| && CodeAt(p, at, SLeb(v)) && at + |SLeb(v)| <= end && |SLeb(v)| <= max
    ensures LebLength(p, at, end, max) == |SLeb(v)|
    ensures p[at + |SLeb(v)| - 1] < 128
    ensures SignExtended(p, at, |SLeb(v)|) == v
    decreases if v < 0 then -v else v
  {
    hide CodeAt, SLeb, LebLength, SignExtended, LastSigned;
    SLebCons(v);
    LengthStep(p, at, end, max);
    if LastSigned(v) {
      CodeAtCons(p, at, v % 128, []);
      SignLast(p, at, v);
    } else {
      SLebShrinks(v);
      CodeAtCons(p, at, v % 128 + 128, SLeb(v / 128));
      SLebDigits(p, at + 1, end, v / 128, max - 1);
      SignStep(p, at, |SLeb(v)|);
    }
  }

  lemma SLebShrinks(v: int)
    requires !LastSigned(v)
    ensures var rest := v / 128; (if rest < 0 then -rest else rest) < (if v < 0 then -v else v)
  {
  }

  lemma {:induction false} SLebSize(v: int, k: nat)
    requires 1 <= k && -Pow128(k) <= 2 * v < Pow128(k)
    ensures |SLeb(v)| <= k
    decreases k
  {
    PowStep(k);
    if k == 1 {
      PowOne();
    } else if !((v / 128 == 0 && v % 128 < 64) || (v / 128 == -1 && v % 128 >= 64)) {
      PowStep(k - 1);
      SLebSize(v / 128, k - 1);
    }
  }

  /** What the last byte can be, given the value. */
  lemma SignedTop(p: seq<Byte>, at: nat, k: nat)
    requires 1 <= k && at + k <= |p| && p[at + k - 1] < 128
    ensures var top, v := p[at + k - 1], SignExtended(p, at, k);
            if top < 64 then Pow128(k - 1) * top <= v
            else v < Pow128(k - 1) * (top + 1) - Pow128(k)
  {
    hide Digits, Pow128;
    DigitsBounds(p, at, k);
  }

  /** A written signed 32-bit number is read back as its bit pattern. */
  lemma ReadSLeb32(p: seq<Byte>, at: nat, end: nat, v: int)
    requires -0x8000_0000 <= v < 0x8000_0000 && end <= |p| && CodeAt(p, at, SLeb(v)) && at + |SLeb(v)| <= end
    ensures ReadS32Leb(p, at, end) == Some(Leb(v % TWO_32, |SLeb(v)|))
  {
    hide Pow128, Digits, LebLength, SLeb, SignExtended;
    PowFour();
    SLebSize(v, 5);
    SLebDigits(p, at, end, v, 5);
    SignedTop(p, at, |SLeb(v)|);
  }

  /** And a 64-bit one. */
  lemma ReadSLeb64(p: seq<Byte>, at: nat, end: nat, v: int)
    requires -0x8000_0000_0000_0000 <= v < 0x8000_0000_0000_0000
    requires end <= |p| && CodeAt(p, at, SLeb(v)) && at + |SLeb(v)| <= end
    ensures ReadS64Leb(p, at, end) == Some(Leb(v % TWO_64, |SLeb(v)|))
  {
    hide Pow128, Digits, LebLength, SLeb, SignExtended;
    PowNine();
    SLebSize(v, 10);
    SLebDigits(p, at, end, v, 10);
    SignedTop(p, at, |SLeb(v)|);
  }
}
