/** Scalar values on the way to a PLC member: `crates/opcua-cmd/src/value.rs`, and the bytes of one struct leaf from
    `crates/opcua-cmd/src/structs.rs`. Floating point numbers are bit patterns; what the machine computes with them is a
    parameter, of which only the exact cases are assumed. */
module Values {
  import opened Wrappers

  type Byte = x: int | 0 <= x < 256

  datatype Kind = Bool | I8 | U8 | I16 | U16 | I32 | U32 | I64 | U64 | F32 | F64 | Str | Unknown

  /** `Int` stands for the six integer variants, `kind` says which. */
  datatype PlcValue =
    | Flag(b: bool)
    | Int(kind: Kind, i: int)
    | Single(bits: nat)
    | Double(bits: nat)
    | Text(s: string)

  /** What is written to a node. */
  datatype Variant =
    | VFlag(b: bool)
    | VInt(kind: Kind, i: int)
    | VSingle(bits: nat)
    | VDouble(bits: nat)
    | VText(s: string)

  const P8 := 0x100
  const P16 := 0x1_0000
  const P32 := 0x1_0000_0000
  const P64 := 0x1_0000_0000_0000_0000

  predicate IsInt(k: Kind) {
    !k.Bool? && !k.F32? && !k.F64? && !k.Str? && !k.Unknown?
  }

  predicate IsWide(k: Kind) {
    k == I64 || k == U64
  }

  /** The range of an integer kind, upper end excluded. */
  function Range(k: Kind): (r: (int, int))
    requires IsInt(k)
  {
    match k
    case I8 => (-0x80, 0x80)
    case U8 => (0, P8)
    case I16 => (-0x8000, 0x8000)
    case U16 => (0, P16)
    case I32 => (-0x8000_0000, 0x8000_0000)
    case U32 => (0, P32)
    case I64 => (-0x8000_0000_0000_0000, 0x8000_0000_0000_0000)
    case U64 => (0, P64)
  }

  predicate InRange(k: Kind, i: int)
    requires IsInt(k)
  {
    Range(k).0 <= i < Range(k).1
  }

  /** `PlcValue` has no 64-bit integers. */
  predicate WfValue(v: PlcValue) {
    match v
    case Int(k, i) => IsInt(k) && !IsWide(k) && InRange(k, i)
    case Single(bits) => bits < P32
    case Double(bits) => bits < P64
    case _ => true
  }

  // ---------------------------------------------------------------- floating point

  datatype Float = Finite(r: real) | Infinite | NotANumber

  /** `meaning` of a double pattern, `widen` single to double, `narrow` double to single, `double` and `single` of an integer,
      and the pattern of the constant NaN. */
  datatype Machine = Machine(meaning: nat -> Float, widen: nat -> nat, narrow: nat -> nat, double: int -> nat, single: int -> nat, nan: nat)

  /** Integers below 2^53 are exact doubles, single to double is exact, and zero is the zero pattern. A NaN may come back with
      other bits. */
  ghost predicate Lawful(m: Machine) {
    && (forall i: int :: -0x20_0000_0000_0000 <= i <= 0x20_0000_0000_0000 ==> m.meaning(m.double(i)) == Finite(i as real) && m.narrow(m.double(i)) == m.single(i))
    && (forall b: nat :: b < P32 ==> m.meaning(m.widen(b)) == NotANumber || m.narrow(m.widen(b)) == b)
    && (forall b: nat :: m.widen(b) < P64 && m.narrow(b) < P32)
    && (forall i: int :: m.double(i) < P64 && m.single(i) < P32)
    && m.meaning(0) == Finite(0.0) && m.meaning(m.nan) == NotANumber && m.nan < P64
  }

  // ---------------------------------------------------------------- a leaf write

  datatype Num = Whole(i: int) | Floating(bits: nat)

  function AsNum(m: Machine, v: PlcValue): Option<Num> {
    match v
    case Flag(b) => Some(Whole(if b then 1 else 0))
    case Int(_, i) => Some(Whole(i))
    case Single(bits) => Some(Floating(m.widen(bits)))
    case Double(bits) => Some(Floating(bits))
    case Text(_) => None
  }

  function IntIn(m: Machine, n: Num, k: Kind): Option<int>
    requires IsInt(k)
  {
    match n
    case Whole(i) => if InRange(k, i) then Some(i) else None
    case Floating(bits) =>
      match m.meaning(bits)
      case Finite(r) => if r.Floor as real == r && InRange(k, r.Floor) then Some(r.Floor) else None
      case _ => None
  }

  function Native(v: PlcValue): Variant {
    match v
    case Flag(b) => VFlag(b)
    case Int(k, i) => VInt(k, i)
    case Single(bits) => VSingle(bits)
    case Double(bits) => VDouble(bits)
    case Text(s) => VText(s)
  }

  /** `coerce`; `None` is the configuration error that names the path. */
  function Coerce(m: Machine, v: PlcValue, k: Kind): Option<Variant> {
    if k == Unknown then Some(Native(v))
    else if k == Str then if v.Text? then Some(VText(v.s)) else None
    else
      match AsNum(m, v)
      case None => None
      case Some(n) =>
        if k == Bool then if n == Whole(0) then Some(VFlag(false)) else if n == Whole(1) then Some(VFlag(true)) else None
        else if k == F32 then Some(VSingle(if n.Whole? then m.single(n.i) else m.narrow(n.bits)))
        else if k == F64 then Some(VDouble(if n.Whole? then m.double(n.i) else n.bits))
        else
          var i := IntIn(m, n, k);
          if i.Some? then Some(VInt(k, i.value)) else None
  }

  // ---------------------------------------------------------------- little endian

  /** The low `w` bytes of `x` in two's complement, lowest first. */
  function Le(x: int, w: nat): (b: seq<Byte>)
    ensures |b| == w
    decreases w
  {
    if w == 0 then [] else [x % 256] + Le(x / 256, w - 1)
  }

  function FromLe(b: seq<Byte>): nat {
    if b == [] then 0 else b[0] + 256 * FromLe(b[1..])
  }

  function Pow256(w: nat): nat {
    if w == 0 then 1 else 256 * Pow256(w - 1)
  }

  lemma {:induction false} FromLeOfLe(x: int, w: nat)
    requires 0 <= x < Pow256(w)
    ensures FromLe(Le(x, w)) == x
  {
    if w > 0 { FromLeOfLe(x / 256, w - 1); }
  }

  lemma {:induction false} LeWraps(x: int, w: nat)
    ensures Le(x + Pow256(w), w) == Le(x, w)
    decreases w
  {
    if w > 0 {
      var p := Pow256(w - 1);
      assert (x + 256 * p) % 256 == x % 256 && (x + 256 * p) / 256 == x / 256 + p;
      LeWraps(x / 256, w - 1);
    }
  }

  lemma Powers()
    ensures Pow256(1) == P8 && Pow256(2) == P16 && Pow256(4) == P32 && Pow256(8) == P64
  {
    assert Pow256(2) == 256 * Pow256(1);
    assert Pow256(4) == 256 * 256 * Pow256(2);
    assert Pow256(8) == 256 * 256 * 256 * 256 * Pow256(4);
  }

  /** Bytes of each kind; strings and unknown kinds have no place in a body. */
  function Width(k: Kind): nat {
    match k
    case Bool => 1
    case I8 => 1
    case U8 => 1
    case I16 => 2
    case U16 => 2
    case I32 => 4
    case U32 => 4
    case F32 => 4
    case I64 => 8
    case U64 => 8
    case F64 => 8
    case _ => 0
  }

  /** The range is the one of the width. */
  lemma RangeOfWidth(k: Kind)
    requires IsInt(k)
    ensures Range(k) == (0, Pow256(Width(k))) || Range(k) == (-(Pow256(Width(k)) / 2), Pow256(Width(k)) / 2)
    ensures Pow256(Width(k)) % 2 == 0
  {
    Powers();
  }

  // ---------------------------------------------------------------- a leaf inside a struct body

  datatype LeafError = NotNumeric | OutOfRange | Unsupported

  function NumF64(m: Machine, v: PlcValue): nat {
    match v
    case Flag(b) => m.double(if b then 1 else 0)
    case Int(_, i) => m.double(i)
    case Single(bits) => m.widen(bits)
    case Double(bits) => bits
    case Text(_) => m.nan
  }

  /** The range `encode` allows: 64-bit kinds take 32-bit values only. */
  function EncodeRange(k: Kind): (int, int)
    requires IsInt(k)
  {
    if k == I64 then Range(I32) else if k == U64 then Range(U32) else Range(k)
  }

  function EncodeInt(m: Machine, k: Kind, n: nat): Result<seq<Byte>, LeafError>
    requires IsInt(k)
  {
    match m.meaning(n)
    case Finite(r) =>
      if r.Floor as real != r || r.Floor < EncodeRange(k).0 || r.Floor >= EncodeRange(k).1 then Err(OutOfRange)
      else Ok(Le(r.Floor, Width(k)))
    case _ => Err(OutOfRange)
  }

  /** One leaf of `encode`; a value that is not given is zero. */
  function EncodeLeaf(m: Machine, k: Kind, v: Option<PlcValue>): Result<seq<Byte>, LeafError> {
    var n := if v.Some? then NumF64(m, v.value) else 0;
    if m.meaning(n).NotANumber? && k != F32 && k != F64 then Err(NotNumeric)
    else
      if k == Bool then Ok([if m.meaning(n) != Finite(0.0) then 1 else 0])
      else if k == F32 then Ok(Le(if v.Some? && v.value.Single? then v.value.bits else m.narrow(n), 4))
      else if k == F64 then Ok(Le(n, 8))
      else if k == Str || k == Unknown then Err(Unsupported)
      else EncodeInt(m, k, n)
  }

  /** The value a server reads at a leaf: section 5.2.2 of OPC 10000-6. */
  function ReadLeaf(k: Kind, b: seq<Byte>): Variant
    requires |b| == Width(k) && k != Str && k != Unknown
  {
    if k == Bool then VFlag(b[0] != 0)
    else if k == F32 then VSingle(FromLe(b))
    else if k == F64 then VDouble(FromLe(b))
    else
      var x := FromLe(b);
      VInt(k, if x < Range(k).1 then x else x - Pow256(Width(k)))
  }

  lemma WidthOfEncoded(m: Machine, k: Kind, v: Option<PlcValue>)
    ensures EncodeLeaf(m, k, v).Ok? ==> k != Str && k != Unknown && |EncodeLeaf(m, k, v).value| == Width(k)
  {
  }

  /** Every integer of the range is read back, negative ones too. */
  lemma ReadInt(k: Kind, i: int)
    requires IsInt(k) && InRange(k, i)
    ensures ReadLeaf(k, Le(i, Width(k))) == VInt(k, i)
  {
    var p := Pow256(Width(k));
    RangeOfWidth(k);
    ReadUnsigned(i, p, Width(k));
  }

  lemma ReadUnsigned(i: int, p: nat, w: nat)
    requires p == Pow256(w) && 0 <= i + p && i < p
    ensures FromLe(Le(i, w)) == if i >= 0 then i else i + p
  {
    if i >= 0 {
      FromLeOfLe(i, w);
    } else {
      LeWraps(i, w);
      FromLeOfLe(i + p, w);
    }
  }

  lemma ReadBits(bits: nat, w: nat)
    requires w == 4 || w == 8
    requires bits < if w == 4 then P32 else P64
    ensures FromLe(Le(bits, w)) == bits
  {
    Powers();
    FromLeOfLe(bits, w);
  }

  /** The number a value stands for, when it is a whole number. */
  function WholeOf(m: Machine, v: PlcValue): Option<int> {
    match m.meaning(NumF64(m, v))
    case Finite(r) => if r.Floor as real == r then Some(r.Floor) else None
    case _ => None
  }

  lemma WholeOfInt(m: Machine, v: PlcValue, k: Kind)
    requires Lawful(m) && WfValue(v) && IsInt(k) && AsNum(m, v).Some?
    ensures IntIn(m, AsNum(m, v).value, k)
         == if WholeOf(m, v).Some? && InRange(k, WholeOf(m, v).value) then WholeOf(m, v) else None
  {
    match v
    case Flag(b) => assert m.meaning(m.double(if b then 1 else 0)) == Finite((if b then 1 else 0) as real);
    case Int(_, i) => assert m.meaning(m.double(i)) == Finite(i as real);
    case _ =>
  }

  /** Which values the two ways of writing a leaf accept. They differ for Bool, where a struct body takes any number that is
      not NaN; for 64-bit kinds, where it takes 32-bit values only; and for a string, which becomes NaN in a float leaf. */
  lemma AcceptedByBoth(m: Machine, k: Kind, v: PlcValue)
    requires Lawful(m) && WfValue(v) && k != Str && k != Unknown
    ensures EncodeLeaf(m, k, Some(v)).Ok? <==>
      if k == F32 || k == F64 then true
      else if v.Text? then false
      else if k == Bool then !m.meaning(NumF64(m, v)).NotANumber?
      else Coerce(m, v, k).Some? && EncodeRange(k).0 <= WholeOf(m, v).value < EncodeRange(k).1
    ensures Coerce(m, v, k).Some? <==>
      if v.Text? then false
      else if k == F32 || k == F64 then true
      else if k == Bool then v.Flag? || (v.Int? && 0 <= v.i <= 1)
      else WholeOf(m, v).Some? && InRange(k, WholeOf(m, v).value)
    ensures !k.Bool? && !IsWide(k) && !v.Text? ==> (EncodeLeaf(m, k, Some(v)).Ok? <==> Coerce(m, v, k).Some?)
  {
    if IsInt(k) {
      AcceptedInt(m, k, v);
    } else if k == Bool {
      AcceptedFlag(m, v);
    }
  }

  lemma AcceptedInt(m: Machine, k: Kind, v: PlcValue)
    requires Lawful(m) && WfValue(v) && IsInt(k)
    ensures EncodeLeaf(m, k, Some(v)).Ok? <==>
      !v.Text? && Coerce(m, v, k).Some? && EncodeRange(k).0 <= WholeOf(m, v).value < EncodeRange(k).1
    ensures Coerce(m, v, k).Some? <==> !v.Text? && WholeOf(m, v).Some? && InRange(k, WholeOf(m, v).value)
  {
    EncodedInt(m, k, v);
    EncodeRangeWithin(k);
    if !v.Text? { WholeOfInt(m, v, k); }
  }

  lemma EncodedInt(m: Machine, k: Kind, v: PlcValue)
    requires IsInt(k)
    ensures EncodeLeaf(m, k, Some(v)).Ok? <==> WholeOf(m, v).Some? && EncodeRange(k).0 <= WholeOf(m, v).value < EncodeRange(k).1
  {
  }

  lemma EncodeRangeWithin(k: Kind)
    requires IsInt(k)
    ensures Range(k).0 <= EncodeRange(k).0 && EncodeRange(k).1 <= Range(k).1
  {
  }

  lemma AcceptedFlag(m: Machine, v: PlcValue)
    requires Lawful(m) && WfValue(v)
    ensures EncodeLeaf(m, Bool, Some(v)).Ok? <==> !m.meaning(NumF64(m, v)).NotANumber?
    ensures Coerce(m, v, Bool).Some? <==> v.Flag? || (v.Int? && 0 <= v.i <= 1)
  {
  }

  /** For a value that both ways accept, the server holds the same after either, unless a NaN changes its bits on the way
      through a double. */
  lemma SameStored(m: Machine, k: Kind, v: PlcValue)
    requires Lawful(m) && WfValue(v) && k != Str && k != Unknown
    requires Coerce(m, v, k).Some? && EncodeLeaf(m, k, Some(v)).Ok?
    ensures |EncodeLeaf(m, k, Some(v)).value| == Width(k)
    ensures ReadLeaf(k, EncodeLeaf(m, k, Some(v)).value) == Coerce(m, v, k).value
       <==> !(k == F32 && v.Single? && m.narrow(m.widen(v.bits)) != v.bits)
  {
    if IsInt(k) {
      WholeOfInt(m, v, k);
      ReadInt(k, WholeOf(m, v).value);
    } else if k == F32 {
      StoredSingle(m, v);
    } else if k == F64 {
      ReadBits(NumF64(m, v), 8);
    } else {
      StoredFlag(m, v);
    }
  }

  lemma StoredSingle(m: Machine, v: PlcValue)
    requires Lawful(m) && WfValue(v) && !v.Text?
    ensures ReadLeaf(F32, EncodeLeaf(m, F32, Some(v)).value) == Coerce(m, v, F32).value
       <==> !(v.Single? && m.narrow(m.widen(v.bits)) != v.bits)
  {
    if v.Single? { ReadBits(v.bits, 4); } else { ReadBits(m.narrow(NumF64(m, v)), 4); }
    match v
    case Flag(b) => assert m.narrow(m.double(if b then 1 else 0)) == m.single(if b then 1 else 0);
    case Int(_, i) => assert m.narrow(m.double(i)) == m.single(i);
    case _ =>
  }

  lemma StoredFlag(m: Machine, v: PlcValue)
    requires Lawful(m) && WfValue(v) && Coerce(m, v, Bool).Some? && EncodeLeaf(m, Bool, Some(v)).Ok?
    ensures ReadLeaf(Bool, EncodeLeaf(m, Bool, Some(v)).value) == Coerce(m, v, Bool).value
  {
    match v
    case Flag(b) => assert m.meaning(m.double(if b then 1 else 0)) == Finite((if b then 1 else 0) as real);
    case Int(_, i) => assert m.meaning(m.double(i)) == Finite(i as real);
    case _ =>
  }

  // ---------------------------------------------------------------- where the two ways differ

  /** One value for each difference: 2 in a Bool, 2^40 in a 64-bit leaf, and a string in a float leaf. */
  lemma AcceptedByOne(m: Machine)
    requires Lawful(m)
    ensures Coerce(m, Int(U8, 2), Bool).None? && EncodeLeaf(m, Bool, Some(Int(U8, 2))) == Ok([1])
    ensures var wide := Double(m.double(0x100_0000_0000));
      Coerce(m, wide, I64) == Some(VInt(I64, 0x100_0000_0000)) && EncodeLeaf(m, I64, Some(wide)) == Err(OutOfRange)
    ensures Coerce(m, Text("1"), F64).None? && EncodeLeaf(m, F64, Some(Text("1"))) == Ok(Le(m.nan, 8))
  {
    assert m.meaning(m.double(2)) == Finite(2 as real);
    assert m.meaning(m.double(0x100_0000_0000)) == Finite(0x100_0000_0000 as real);
  }

  const QUIET := 0x40_0000

  /** A single that is a NaN: all exponent bits set and a fraction that is not zero. */
  predicate IsNan(bits: nat) {
    bits / 0x80_0000 % 0x100 == 0xFF && bits % 0x80_0000 != 0
  }

  /** A NaN whose quiet bit, the highest of the fraction, is clear. */
  predicate Signalling(bits: nat) {
    IsNan(bits) && bits % 0x80_0000 < QUIET
  }

  function Quieted(bits: nat): nat {
    if Signalling(bits) then bits + QUIET else bits
  }

  /** The patterns of NaNs and of signalling NaNs, positive and negative. */
  lemma NansExactly(bits: nat)
    requires bits < P32
    ensures IsNan(bits) <==> 0x7F80_0001 <= bits <= 0x7FFF_FFFF || 0xFF80_0001 <= bits <= 0xFFFF_FFFF
    ensures Signalling(bits) <==> 0x7F80_0001 <= bits <= 0x7FBF_FFFF || 0xFF80_0001 <= bits <= 0xFFBF_FFFF
  {
  }

  /** A machine that converts NaNs as section 6.2 of IEEE 754-2019 has it: the fraction is kept, a signalling NaN comes out
      quiet. */
  ghost predicate Quieting(m: Machine) {
    && Lawful(m)
    && forall b: nat :: b < P32 ==>
      (m.meaning(m.widen(b)) == NotANumber <==> IsNan(b)) && (IsNan(b) ==> m.narrow(m.widen(b)) == Quieted(b))
  }

  /** On such a machine the two ways store a value differently exactly when it is a signalling NaN for a single leaf. */
  lemma SameUnlessSignalling(m: Machine, k: Kind, v: PlcValue)
    requires Quieting(m) && WfValue(v) && k != Str && k != Unknown
    requires Coerce(m, v, k).Some? && EncodeLeaf(m, k, Some(v)).Ok?
    ensures |EncodeLeaf(m, k, Some(v)).value| == Width(k)
    ensures ReadLeaf(k, EncodeLeaf(m, k, Some(v)).value) == Coerce(m, v, k).value <==> !(k == F32 && v.Single? && Signalling(v.bits))
  {
    SameStored(m, k, v);
    if v.Single? {
      assert v.bits < P32 && (m.meaning(m.widen(v.bits)) == NotANumber <==> IsNan(v.bits));
    }
  }

  /** The smallest signalling NaN: the struct body keeps it, the leaf write makes it quiet. */
  lemma ASignallingNanChanges(m: Machine)
    requires Quieting(m)
    ensures Coerce(m, Single(0x7F80_0001), F32) == Some(VSingle(0x7FC0_0001))
    ensures EncodeLeaf(m, F32, Some(Single(0x7F80_0001))).Ok?
         && ReadLeaf(F32, EncodeLeaf(m, F32, Some(Single(0x7F80_0001))).value) == VSingle(0x7F80_0001)
  {
    assert Signalling(0x7F80_0001);
    assert 0x7F80_0001 < P32 && m.narrow(m.widen(0x7F80_0001)) == Quieted(0x7F80_0001);
    ReadBits(0x7F80_0001, 4);
  }

  // ---------------------------------------------------------------- the assumptions can be met

  const NANS := 0x7FF8_0000_0000_0000
  const EXACT := 0x20_0000_0000_0000

  function CodeOf(i: int): nat {
    if i == 0 || i < -EXACT || i > EXACT then 0 else if i > 0 then P32 + 2 * i else P32 - 2 * i + 1
  }

  function NumberOf(code: nat): real {
    if code < P32 then 0.0 else if (code - P32) % 2 == 0 then ((code - P32) / 2) as real else (-((code - P32) / 2)) as real
  }

  function NarrowCode(code: nat): nat {
    if NANS <= code < NANS + P32 then code - NANS else code % P32
  }

  /** A small machine: its doubles are codes for integers and for the singles. */
  function Sample(): Machine {
    Machine(
      (b: nat) => if NANS <= b < NANS + P32 then NotANumber else Finite(NumberOf(b)),
      (b: nat) => if b >= P32 then 0 else if IsNan(b) then NANS + Quieted(b) else b,
      (b: nat) => NarrowCode(b),
      (i: int) => CodeOf(i),
      (i: int) => NarrowCode(CodeOf(i)),
      NANS)
  }

  lemma SampleIntegers(i: int)
    ensures Sample().double(i) < P64 && Sample().single(i) < P32
    ensures -EXACT <= i <= EXACT ==>
      Sample().meaning(Sample().double(i)) == Finite(i as real) && Sample().narrow(Sample().double(i)) == Sample().single(i)
  {
    if -EXACT <= i <= EXACT { assert CodeOf(i) < NANS && NumberOf(CodeOf(i)) == i as real; }
  }

  lemma QuietedFits(bits: nat)
    requires bits < P32
    ensures Quieted(bits) < P32
  {
  }

  lemma SampleSingles(b: nat)
    ensures Sample().widen(b) < P64 && Sample().narrow(b) < P32
    ensures b < P32 ==> (Sample().meaning(Sample().widen(b)) == NotANumber <==> IsNan(b))
    ensures b < P32 ==> Sample().narrow(Sample().widen(b)) == if IsNan(b) then Quieted(b) else b
  {
    if b < P32 { QuietedFits(b); }
  }

  /** There is a machine with all the assumed properties. */
  lemma SampleIsQuieting()
    ensures Quieting(Sample())
  {
    var m := Sample();
    forall i: int
      ensures m.double(i) < P64 && m.single(i) < P32
      ensures -EXACT <= i <= EXACT ==> m.meaning(m.double(i)) == Finite(i as real) && m.narrow(m.double(i)) == m.single(i)
    {
      SampleIntegers(i);
    }
    forall b: nat
      ensures m.widen(b) < P64 && m.narrow(b) < P32
      ensures b < P32 ==> (m.meaning(m.widen(b)) == NotANumber <==> IsNan(b)) && m.narrow(m.widen(b)) == if IsNan(b) then Quieted(b) else b
    {
      SampleSingles(b);
    }
  }

  // ---------------------------------------------------------------- a leaf that is not given

  /** It is written as zero: false, 0, or the bits of the double zero, made single where the leaf is. */
  lemma MissingIsZero(m: Machine, k: Kind)
    requires Lawful(m) && k != Str && k != Unknown
    ensures EncodeLeaf(m, k, None).Ok? && |EncodeLeaf(m, k, None).value| == Width(k)
    ensures ReadLeaf(k, EncodeLeaf(m, k, None).value)
         == if k == Bool then VFlag(false) else if k == F32 then VSingle(m.narrow(0)) else if k == F64 then VDouble(0) else VInt(k, 0)
  {
    if IsInt(k) {
      ReadInt(k, 0);
    } else if k == F32 {
      ReadBits(m.narrow(0), 4);
    } else if k == F64 {
      ReadBits(0, 8);
    }
  }
}
