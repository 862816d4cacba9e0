/** Float to integer: range checks that compare bit patterns, against truncation of the real number that
    the pattern stands for (WebAssembly Core Specification 1.0, section 4.3.4, `trunc_u` and `trunc_s`). */
module FloatTrunc {
  import opened Syntax

  datatype Source = Single | Double

  datatype TargetType = S32 | U32 | S64 | U64

  // ----- The bits -----------------------------------------------------------------------------------------------

  /** One more than `kSigMask`. */
  function SigUnit(s: Source): nat {
    if s == Single then 0x80_0000 else 0x10_0000_0000_0000
  }

  /** The exponent of the last significand bit when the exponent field is 0 would be this. */
  function Scale(s: Source): int {
    if s == Single then -150 else -1075
  }

  function Inf(s: Source): nat {
    if s == Single then 0x7f80_0000 else 0x7ff0_0000_0000_0000
  }

  /** `kNegZero`, which is also `kSignMask`. */
  function NegZero(s: Source): nat {
    if s == Single then 0x8000_0000 else 0x8000_0000_0000_0000
  }

  function NegOne(s: Source): nat {
    if s == Single then 0xbf80_0000 else 0xbff0_0000_0000_0000
  }

  predicate IsNan(s: Source, bits: nat) {
    Inf(s) < bits < NegZero(s) || bits > NegZero(s) + Inf(s)
  }

  predicate Pattern(s: Source, bits: nat) {
    bits < 2 * NegZero(s)
  }

  /** The sign bit apart. */
  function Unsigned(s: Source, bits: nat): nat {
    if bits >= NegZero(s) then bits - NegZero(s) else bits
  }

  predicate Finite(s: Source, bits: nat) {
    Unsigned(s, bits) < Inf(s)
  }

  // ----- The numbers --------------------------------------------------------------------------------------------

  function Pow2(e: int): (r: real)
    ensures r > 0.0
    decreases if e < 0 then -e else e
  {
    if e == 0 then 1.0 else if e > 0 then 2.0 * Pow2(e - 1) else Pow2(e + 1) / 2.0
  }

  /** Exponent field and fraction: the leading bit is implied unless the exponent field is 0. */
  function Scaled(s: Source, e: nat, f: nat): real {
    if e == 0 then f as real * Pow2(Scale(s) + 1) else (SigUnit(s) + f) as real * Pow2(Scale(s) + e)
  }

  /** A finite pattern without its sign. */
  function Magnitude(s: Source, m: nat): real {
    Scaled(s, m / SigUnit(s), m % SigUnit(s))
  }

  function Value(s: Source, bits: nat): real {
    if bits >= NegZero(s) then -Magnitude(s, bits - NegZero(s)) else Magnitude(s, bits)
  }

  /** Towards zero. */
  function Trunc(v: real): int {
    if v >= 0.0 then v.Floor else -(-v).Floor
  }

  function Smallest(t: TargetType): int {
    match t
    case S32 => -0x8000_0000
    case S64 => -0x8000_0000_0000_0000
    case _ => 0
  }

  function Largest(t: TargetType): int {
    match t
    case S32 => 0x7fff_ffff
    case U32 => 0xffff_ffff
    case S64 => 0x7fff_ffff_ffff_ffff
    case U64 => 0xffff_ffff_ffff_ffff
  }

  function Clamp(t: TargetType, i: int): int {
    if i < Smallest(t) then Smallest(t) else if i > Largest(t) then Largest(t) else i
  }

  predicate InTarget(t: TargetType, i: int) {
    Smallest(t) <= i <= Largest(t)
  }

  // ----- The code -------------------------------------------------------------------------------------------------

  function UpperBits(t: TargetType, s: Source): nat {
    match (t, s)
    case (S32, Single) => 0x4f00_0000
    case (S64, Single) => 0x5f00_0000
    case (U32, Single) => 0x4f80_0000
    case (U64, Single) => 0x5f80_0000
    case (S32, Double) => 0x41df_ffff_ffc0_0000
    case (S64, Double) => 0x43e0_0000_0000_0000
    case (U32, Double) => 0x41ef_ffff_ffe0_0000
    case (U64, Double) => 0x43f0_0000_0000_0000
  }

  function LowerBits(t: TargetType, s: Source): nat {
    match (t, s)
    case (S32, Single) => 0xcf00_0000
    case (S64, Single) => 0xdf00_0000
    case (S32, Double) => 0xc1e0_0000_0000_0000
    case (S64, Double) => 0xc3e0_0000_0000_0000
    case _ => NegOne(s)
  }

  predicate Is32Bit(t: TargetType) {
    t == S32 || t == U32
  }

  predicate IsSigned(t: TargetType) {
    t == S32 || t == S64
  }

  /** The eight instances: the upper limit is inclusive only from double to 32 bits, the lower one only for
      signed targets. */
  predicate IsConversionInRange(t: TargetType, s: Source, bits: nat) {
    || (if s == Double && Is32Bit(t) then bits <= UpperBits(t, s) else bits < UpperBits(t, s))
    || (bits >= NegZero(s) && if IsSigned(t) then bits <= LowerBits(t, s) else bits < LowerBits(t, s))
  }

  datatype TruncResult = Ok(value: int) | InvalidConversion | IntegerOverflow

  /** `static_cast` from a float: undefined unless the truncated value fits. */
  function Cast(t: TargetType, v: real): (r: int)
    requires InTarget(t, Trunc(v))
    ensures InTarget(t, r)
  {
    Trunc(v)
  }

  // ----- Order of patterns, order of numbers ---------------------------------------------------------------------

  lemma {:induction false} Pow2Up(e: int, e': int)
    requires e <= e'
    ensures Pow2(e) <= Pow2(e')
    decreases e' - e
  {
    if e < e' {
      Pow2Step(e);
      Pow2Up(e + 1, e');
    }
  }

  lemma Pow2Step(e: int)
    ensures Pow2(e + 1) == 2.0 * Pow2(e)
  {
  }

  lemma TimesUp(a: real, b: real, p: real)
    requires a < b && p > 0.0
    ensures a * p < b * p
  {
  }

  lemma TimesUpTo(a: real, p: real, q: real)
    requires a >= 0.0 && p <= q
    ensures a * p <= a * q
  {
  }

  lemma SameBinade(s: Source, e: nat, f: nat, f': nat)
    requires f < f'
    ensures Scaled(s, e, f) < Scaled(s, e, f')
  {
    hide Pow2, SigUnit;
    var p := Pow2(if e == 0 then Scale(s) + 1 else Scale(s) + e);
    var u := if e == 0 then 0 else SigUnit(s);
    assert Scaled(s, e, f) == (u + f) as real * p;
    assert Scaled(s, e, f') == (u + f') as real * p;
    TimesUp((u + f) as real, (u + f') as real, p);
  }

  lemma ScaledUp(s: Source, e: nat, f: nat, e': nat, f': nat)
    requires f < SigUnit(s) && f' < SigUnit(s) && (e < e' || (e == e' && f < f'))
    ensures Scaled(s, e, f) < Scaled(s, e', f')
  {
    hide Pow2, SigUnit;
    var u := SigUnit(s);
    if e == e' {
      SameBinade(s, e, f, f');
    } else {
      BinadeTop(s, e, f);
      Pow2Up(Scale(s) + e + 1, Scale(s) + e');
      TimesUpTo(u as real, Pow2(Scale(s) + e + 1), Pow2(Scale(s) + e'));
      BinadeBottom(s, e', f');
    }
  }

  /** Without their signs, patterns are ordered as their numbers are. */
  lemma MagnitudeUp(s: Source, a: nat, b: nat)
    requires a < b
    ensures Magnitude(s, a) < Magnitude(s, b)
  {
    hide Scaled;
    var u := SigUnit(s);
    Ordered(s, a, b);
    ScaledUp(s, a / u, a % u, b / u, b % u);
  }

  lemma Ordered(s: Source, a: nat, b: nat)
    requires a < b
    ensures var u := SigUnit(s); a / u < b / u || (a / u == b / u && a % u < b % u)
  {
    if s == Single {
      assert a == 0x80_0000 * (a / 0x80_0000) + a % 0x80_0000;
    } else {
      assert a == 0x10_0000_0000_0000 * (a / 0x10_0000_0000_0000) + a % 0x10_0000_0000_0000;
    }
  }

  lemma BinadeTop(s: Source, e: nat, f: nat)
    requires f < SigUnit(s)
    ensures Scaled(s, e, f) < SigUnit(s) as real * Pow2(Scale(s) + e + 1)
  {
    hide Pow2;
    Pow2Step(Scale(s) + e);
    if e == 0 {
      TimesUp(f as real, SigUnit(s) as real, Pow2(Scale(s) + 1));
    } else {
      TimesUp((SigUnit(s) + f) as real, 2.0 * SigUnit(s) as real, Pow2(Scale(s) + e));
      Doubled(SigUnit(s) as real, Pow2(Scale(s) + e));
    }
  }

  lemma Doubled(a: real, p: real)
    ensures (2.0 * a) * p == a * (2.0 * p)
  {
  }

  lemma BinadeBottom(s: Source, e: nat, f: nat)
    requires e > 0
    ensures SigUnit(s) as real * Pow2(Scale(s) + e) <= Scaled(s, e, f)
  {
    hide Pow2;
    if f > 0 {
      TimesUp(SigUnit(s) as real, (SigUnit(s) + f) as real, Pow2(Scale(s) + e));
    }
  }

  lemma Compare(s: Source, a: nat, b: nat)
    ensures a <= b <==> Magnitude(s, a) <= Magnitude(s, b)
  {
    hide Magnitude;
    if a < b {
      MagnitudeUp(s, a, b);
    } else if b < a {
      MagnitudeUp(s, b, a);
    }
  }

  // ----- The limits -----------------------------------------------------------------------------------------------

  function Power(n: nat): nat {
    if n == 0 then 1 else 2 * Power(n - 1)
  }

  lemma {:induction false} Pow2Nat(n: nat)
    ensures Pow2(n) == Power(n) as real
    ensures Power(n) > 0 && Pow2(-(n as int)) * Power(n) as real == 1.0
  {
    if n > 0 {
      Pow2Nat(n - 1);
      var m: int := -(n as int);
      assert Pow2(m) == Pow2(m + 1) / 2.0;
      Halved(Pow2(m + 1), Power(n - 1) as real);
    }
  }

  lemma Halved(p: real, q: real)
    requires p * q == 1.0
    ensures (p / 2.0) * (2.0 * q) == 1.0
  {
  }

  lemma AtUp(s: Source, m: nat, e: nat, k: nat)
    requires e > 0 && m / SigUnit(s) == e && Scale(s) + e == k
    ensures Magnitude(s, m) == ((SigUnit(s) + m % SigUnit(s)) * Power(k)) as real
  {
    hide Pow2, Power;
    Pow2Nat(k);
  }

  lemma AtDown(s: Source, m: nat, e: nat, k: nat, v: nat)
    requires e > 0 && m / SigUnit(s) == e && Scale(s) + e == -(k as int)
    requires SigUnit(s) + m % SigUnit(s) == v * Power(k)
    ensures Magnitude(s, m) == v as real
  {
    hide Pow2, Power;
    Pow2Nat(k);
    Cancelled(v as real, Power(k) as real, Pow2(-(k as int)));
  }

  lemma Cancelled(v: real, p: real, q: real)
    requires q * p == 1.0
    ensures (v * p) * q == v
  {
    assert (v * p) * q == v * (q * p);
  }

  lemma {:induction false} PowerSum(a: nat, b: nat)
    ensures Power(a + b) == Power(a) * Power(b)
  {
    if a > 0 {
      PowerSum(a - 1, b);
    }
  }

  lemma Powers()
    ensures Power(8) == 0x100 && Power(9) == 0x200 && Power(11) == 0x800 && Power(12) == 0x1000
    ensures Power(21) == 0x20_0000 && Power(22) == 0x40_0000 && Power(23) == 0x80_0000
    ensures Power(40) == 0x100_0000_0000 && Power(41) == 0x200_0000_0000 && Power(52) == 0x10_0000_0000_0000
  {
    PowerSum(20, 20);
    PowerSum(1, 40);
    PowerSum(12, 40);
  }

  lemma SingleLimits()
    ensures Magnitude(Single, 0x4f00_0000) == 0x8000_0000 as real
    ensures Magnitude(Single, 0x4f00_0001) == 0x8000_0100 as real
    ensures Magnitude(Single, 0x4f80_0000) == 0x1_0000_0000 as real
    ensures Magnitude(Single, 0x5f00_0000) == 0x8000_0000_0000_0000 as real
    ensures Magnitude(Single, 0x5f00_0001) == 0x8000_0100_0000_0000 as real
    ensures Magnitude(Single, 0x5f80_0000) == 0x1_0000_0000_0000_0000 as real
    ensures Magnitude(Single, 0x3f80_0000) == 1.0
  {
    hide Magnitude, Power;
    Powers();
    AtUp(Single, 0x4f00_0000, 158, 8);
    AtUp(Single, 0x4f00_0001, 158, 8);
    AtUp(Single, 0x4f80_0000, 159, 9);
    AtUp(Single, 0x5f00_0000, 190, 40);
    AtUp(Single, 0x5f00_0001, 190, 40);
    AtUp(Single, 0x5f80_0000, 191, 41);
    AtDown(Single, 0x3f80_0000, 127, 23, 1);
  }

  lemma DoubleLimits()
    ensures Magnitude(Double, 0x41df_ffff_ffc0_0000) == 0x7fff_ffff as real
    ensures Magnitude(Double, 0x41e0_0000_0000_0000) == 0x8000_0000 as real
    ensures Magnitude(Double, 0x41ef_ffff_ffe0_0000) == 0xffff_ffff as real
    ensures Magnitude(Double, 0x43e0_0000_0000_0000) == 0x8000_0000_0000_0000 as real
    ensures Magnitude(Double, 0x43e0_0000_0000_0001) == 0x8000_0000_0000_0800 as real
    ensures Magnitude(Double, 0x43f0_0000_0000_0000) == 0x1_0000_0000_0000_0000 as real
    ensures Magnitude(Double, 0x3ff0_0000_0000_0000) == 1.0
  {
    hide Magnitude, Power;
    Powers();
    AtDown(Double, 0x41df_ffff_ffc0_0000, 1053, 22, 0x7fff_ffff);
    AtDown(Double, 0x41e0_0000_0000_0000, 1054, 21, 0x8000_0000);
    AtDown(Double, 0x41ef_ffff_ffe0_0000, 1054, 21, 0xffff_ffff);
    AtUp(Double, 0x43e0_0000_0000_0000, 1086, 11);
    AtUp(Double, 0x43e0_0000_0000_0001, 1086, 11);
    AtUp(Double, 0x43f0_0000_0000_0000, 1087, 12);
    AtDown(Double, 0x3ff0_0000_0000_0000, 1023, 52, 1);
  }

  // ----- What the range checks mean -----------------------------------------------------------------------------

  /** The largest and smallest numbers that pass, before truncation. */
  predicate BelowLimit(t: TargetType, s: Source, v: real) {
    if s == Double && Is32Bit(t) then v <= Largest(t) as real else v < (Largest(t) + 1) as real
  }

  predicate AboveLow(t: TargetType, v: real) {
    if IsSigned(t) then v >= Smallest(t) as real else v > -1.0
  }

  lemma ZeroMagnitude(s: Source, m: nat)
    ensures Magnitude(s, m) >= 0.0
  {
    hide Pow2;
    var e, f := m / SigUnit(s), m % SigUnit(s);
    if e == 0 {
      TimesUpZero(f as real, Pow2(Scale(s) + 1));
    } else {
      TimesUpZero((SigUnit(s) + f) as real, Pow2(Scale(s) + e));
    }
  }

  lemma TimesUpZero(a: real, p: real)
    requires a >= 0.0 && p > 0.0
    ensures a * p >= 0.0
  {
  }

  /** The comparison of patterns is a comparison of numbers. */
  lemma InRangeMeans(t: TargetType, s: Source, bits: nat)
    requires Pattern(s, bits) && !IsNan(s, bits)
    ensures IsConversionInRange(t, s, bits)
       <==> Finite(s, bits) && BelowLimit(t, s, Value(s, bits)) && AboveLow(t, Value(s, bits))
  {
    hide Magnitude;
    var m := Unsigned(s, bits);
    ZeroMagnitude(s, m);
    SingleLimits();
    DoubleLimits();
    if bits < NegZero(s) {
      Compare(s, m, UpperBits(t, s));
      Compare(s, UpperBits(t, s), m);
    } else {
      Compare(s, m, LowerBits(t, s) - NegZero(s));
      Compare(s, LowerBits(t, s) - NegZero(s), m);
    }
  }

  /** A number between the whole numbers just outside a range truncates into it, and only such a number. */
  lemma TruncFits(t: TargetType, v: real)
    ensures InTarget(t, Trunc(v)) <==> (Smallest(t) - 1) as real < v < (Largest(t) + 1) as real
  {
  }

  /** No single, and no double beyond 32 bits, lies strictly between the smallest integer and the one before
      it, so comparing the number before truncation is as good as after. */
  lemma LowIsExact(t: TargetType, s: Source, bits: nat)
    requires Pattern(s, bits) && Finite(s, bits) && !(s == Double && t == S32)
    ensures AboveLow(t, Value(s, bits)) <==> (Smallest(t) - 1) as real < Value(s, bits)
  {
    hide Magnitude;
    var m := Unsigned(s, bits);
    ZeroMagnitude(s, m);
    if IsSigned(t) && bits >= NegZero(s) {
      SingleLimits();
      DoubleLimits();
      Compare(s, m, LowerBits(t, s) - NegZero(s));
      Compare(s, LowerBits(t, s) - NegZero(s) + 1, m);
    }
  }

  /** When the code converts: always when it should, except from double to 32 bits, where a number beyond the
      limits is refused although its integral part is within them. */
  predicate Refused(t: TargetType, s: Source, v: real) {
    && s == Double && Is32Bit(t)
    && (v > Largest(t) as real || (t == S32 && v < Smallest(t) as real))
  }

  lemma ConvertsWhen(t: TargetType, s: Source, bits: nat)
    requires Pattern(s, bits) && !IsNan(s, bits)
    ensures IsConversionInRange(t, s, bits)
       <==> Finite(s, bits) && InTarget(t, Trunc(Value(s, bits))) && !Refused(t, s, Value(s, bits))
  {
    hide Magnitude, IsConversionInRange, Trunc, Value;
    InRangeMeans(t, s, bits);
    if Finite(s, bits) {
      TruncFits(t, Value(s, bits));
      if !(s == Double && t == S32) {
        LowIsExact(t, s, bits);
      }
    }
  }

  // ----- The instructions -----------------------------------------------------------------------------------------

  /** `IntTrunc`. The conversion in the last branch is defined: its operand fits. */
  function IntTrunc(t: TargetType, s: Source, bits: nat): (r: TruncResult)
    requires Pattern(s, bits)
    ensures r == InvalidConversion <==> IsNan(s, bits)
    ensures r.Ok? ==> Finite(s, bits) && InTarget(t, r.value) && r.value == Trunc(Value(s, bits))
  {
    if IsNan(s, bits) then InvalidConversion
    else if !IsConversionInRange(t, s, bits) then IntegerOverflow
    else
      ConvertsWhen(t, s, bits);
      Ok(Cast(t, Value(s, bits)))
  }

  /** `IntTruncSat`, as a number: `ToRep` only reinterprets it. */
  function IntTruncSat(t: TargetType, s: Source, bits: nat): (r: int)
    requires Pattern(s, bits)
    ensures InTarget(t, r)
  {
    if IsNan(s, bits) then 0
    else if !IsConversionInRange(t, s, bits) then (if bits >= NegZero(s) then Smallest(t) else Largest(t))
    else
      ConvertsWhen(t, s, bits);
      Cast(t, Value(s, bits))
  }

  /** The trapping instructions succeed exactly when the standard's partial function is defined and the number
      is not refused; for single sources and 64-bit targets nothing is. */
  lemma TruncExact(t: TargetType, s: Source, bits: nat)
    requires Pattern(s, bits)
    ensures IntTrunc(t, s, bits).Ok?
       <==> !IsNan(s, bits) && Finite(s, bits) && InTarget(t, Trunc(Value(s, bits))) && !Refused(t, s, Value(s, bits))
    ensures s == Single || !Is32Bit(t) ==>
              (IntTrunc(t, s, bits).Ok? <==> !IsNan(s, bits) && Finite(s, bits) && InTarget(t, Trunc(Value(s, bits))))
  {
    hide Value, Trunc, IsConversionInRange;
    if !IsNan(s, bits) {
      ConvertsWhen(t, s, bits);
    }
  }

  /** 2147483647.5 as a double: its integral part is the largest i32, and it traps. */
  lemma RefusedDouble()
    ensures var bits := 0x41df_ffff_ffe0_0000;
            && Pattern(Double, bits) && Finite(Double, bits) && Trunc(Value(Double, bits)) == Largest(S32)
            && IntTrunc(S32, Double, bits) == IntegerOverflow
  {
    hide Magnitude, Power;
    var m := 0x41df_ffff_ffe0_0000;
    Powers();
    DoubleLimits();
    MagnitudeUp(Double, 0x41df_ffff_ffc0_0000, m);
    MagnitudeUp(Double, m, 0x41e0_0000_0000_0000);
  }

  /** The saturating instructions are right for every pattern: 0 for NaN, the nearer limit for infinities, and
      the clamped integral part otherwise. What the range check refuses saturates to the right number. */
  lemma TruncSatExact(t: TargetType, s: Source, bits: nat)
    requires Pattern(s, bits)
    ensures IntTruncSat(t, s, bits)
         == if IsNan(s, bits) then 0
            else if !Finite(s, bits) then (if bits >= NegZero(s) then Smallest(t) else Largest(t))
            else Clamp(t, Trunc(Value(s, bits)))
  {
    hide Magnitude, IsConversionInRange;
    if !IsNan(s, bits) {
      ConvertsWhen(t, s, bits);
      ZeroMagnitude(s, Unsigned(s, bits));
    }
  }
}
