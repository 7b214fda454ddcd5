/** A whole struct as one binary body: `crates/opcua-cmd/src/structs.rs`, in the encoding of sections 5.2.2, 5.2.5 and 5.2.6
    of OPC 10000-6. */
module Structs {
  import opened Wrappers
  import opened Values

  /** One place of a body, in declaration order: a scalar leaf, or the number of elements before an array. */
  datatype Slot = Leaf(path: string, kind: Kind) | ArrayLen(n: int)

  datatype Spec = Spec(member: string, slots: seq<Slot>)

  datatype EncodeError = EncodeError(path: string, why: LeafError)

  type Given = map<string, PlcValue>

  function Get(values: Given, path: string): Option<PlcValue> {
    if path in values then Some(values[path]) else None
  }

  function SlotBytes(m: Machine, slot: Slot, values: Given): Result<seq<Byte>, EncodeError> {
    match slot
    case ArrayLen(n) => Ok(Le(n, 4))
    case Leaf(path, kind) =>
      match EncodeLeaf(m, kind, Get(values, path))
      case Ok(b) => Ok(b)
      case Err(why) => Err(EncodeError(path, why))
  }

  function SlotWidth(slot: Slot): nat {
    if slot.ArrayLen? then 4 else Width(slot.kind)
  }

  /** The length of every body of these slots. */
  function BodyWidth(slots: seq<Slot>): nat {
    if slots == [] then 0 else SlotWidth(slots[0]) + BodyWidth(slots[1..])
  }

  function Glue(b: seq<Byte>, more: Result<seq<Byte>, EncodeError>): Result<seq<Byte>, EncodeError> {
    match more
    case Ok(r) => Ok(b + r)
    case Err(e) => Err(e)
  }

  /** The bytes of the slots one after the other, or the first leaf that has none. */
  function Body(m: Machine, slots: seq<Slot>, values: Given): Result<seq<Byte>, EncodeError> {
    if slots == [] then Ok([])
    else
      match SlotBytes(m, slots[0], values)
      case Err(e) => Err(e)
      case Ok(b) => Glue(b, Body(m, slots[1..], values))
  }

  lemma GlueTwice(a: seq<Byte>, b: seq<Byte>, more: Result<seq<Byte>, EncodeError>)
    ensures Glue(a, Glue(b, more)) == Glue(a + b, more)
  {
    if more.Ok? { assert a + (b + more.value) == a + b + more.value; }
  }

  lemma GlueNothing(b: seq<Byte>, more: Result<seq<Byte>, EncodeError>)
    ensures Glue([], more) == more && Glue(b, Ok([])) == Ok(b)
  {
    if more.Ok? { assert [] + more.value == more.value; }
    assert b + [] == b;
  }

  /** `encode` */
  method Encode(m: Machine, spec: Spec, values: Given) returns (r: Result<seq<Byte>, EncodeError>)
    ensures r == Body(m, spec.slots, values)
  {
    var out: seq<Byte> := [];
    assert spec.slots[0..] == spec.slots;
    GlueNothing(out, Body(m, spec.slots, values));
    for i := 0 to |spec.slots|
      invariant Body(m, spec.slots, values) == Glue(out, Body(m, spec.slots[i..], values))
    {
      ghost var rest := Body(m, spec.slots[i + 1..], values);
      assert spec.slots[i..][1..] == spec.slots[i + 1..];
      match spec.slots[i] {
        case ArrayLen(n) =>
          GlueTwice(out, Le(n, 4), rest);
          out := out + Le(n, 4);
        case Leaf(path, kind) =>
          var leaf := EncodeLeaf(m, kind, Get(values, path));
          if leaf.Err? { return Err(EncodeError(path, leaf.error)); }
          GlueTwice(out, leaf.value, rest);
          out := out + leaf.value;
      }
    }
    GlueNothing(out, Ok([]));
    return Ok(out);
  }

  // ---------------------------------------------------------------- where a leaf lies

  lemma SlotBytesWidth(m: Machine, slot: Slot, values: Given)
    ensures SlotBytes(m, slot, values).Ok? ==> |SlotBytes(m, slot, values).value| == SlotWidth(slot)
  {
    if slot.Leaf? { WidthOfEncoded(m, slot.kind, Get(values, slot.path)); }
  }

  /** A body has the length that its slots fix, whatever the values. */
  lemma {:induction false} BodyLength(m: Machine, slots: seq<Slot>, values: Given)
    ensures Body(m, slots, values).Ok? ==> |Body(m, slots, values).value| == BodyWidth(slots)
  {
    if slots != [] {
      SlotBytesWidth(m, slots[0], values);
      BodyLength(m, slots[1..], values);
    }
  }

  /** Each slot lies behind the widths of the slots before it. */
  lemma {:induction false} SlotOffset(m: Machine, slots: seq<Slot>, values: Given, k: nat)
    requires k < |slots| && Body(m, slots, values).Ok?
    ensures At(Body(m, slots, values).value, BodyWidth(slots[..k]), SlotBytes(m, slots[k], values))
    ensures SlotBytes(m, slots[k], values).Ok? && |SlotBytes(m, slots[k], values).value| == SlotWidth(slots[k])
  {
    SlotBytesWidth(m, slots[0], values);
    if k > 0 {
      SlotOffset(m, slots[1..], values, k - 1);
      assert slots[..k][1..] == slots[1..][..k - 1];
      AtShift(SlotBytes(m, slots[0], values).value, Body(m, slots[1..], values).value, BodyWidth(slots[1..][..k - 1]), SlotBytes(m, slots[k], values));
    }
  }

  /** The bytes of `part` stand in `b` from position `at` on. */
  predicate At(b: seq<Byte>, at: nat, part: Result<seq<Byte>, EncodeError>) {
    part.Ok? && at + |part.value| <= |b| && b[at..at + |part.value|] == part.value
  }

  lemma AtShift(head: seq<Byte>, tail: seq<Byte>, at: nat, part: Result<seq<Byte>, EncodeError>)
    requires At(tail, at, part)
    ensures At(head + tail, |head| + at, part)
  {
    assert (head + tail)[|head| + at..|head| + at + |part.value|] == tail[at..at + |part.value|];
  }

  /** A body exists when every leaf has bytes; otherwise the first leaf without is reported. */
  lemma {:induction false} BodyError(m: Machine, slots: seq<Slot>, values: Given)
    ensures Body(m, slots, values).Ok? <==> forall k | 0 <= k < |slots| :: SlotBytes(m, slots[k], values).Ok?
    ensures Body(m, slots, values).Err? ==>
      exists k :: 0 <= k < |slots| && SlotBytes(m, slots[k], values) == Err(Body(m, slots, values).error)
        && forall j | 0 <= j < k :: SlotBytes(m, slots[j], values).Ok?
  {
    if slots != [] && SlotBytes(m, slots[0], values).Ok? {
      BodyError(m, slots[1..], values);
      assert forall k | 0 < k < |slots| :: slots[k] == slots[1..][k - 1];
      if Body(m, slots[1..], values).Err? {
        var k :| 0 <= k < |slots[1..]| && SlotBytes(m, slots[1..][k], values) == Err(Body(m, slots[1..], values).error)
          && forall j | 0 <= j < k :: SlotBytes(m, slots[1..][j], values).Ok?;
        assert SlotBytes(m, slots[k + 1], values) == Err(Body(m, slots, values).error);
      }
    }
  }

  // ---------------------------------------------------------------- what the server stores

  type Store = map<string, Variant>

  predicate Scalar(k: Kind) {
    k != Str && k != Unknown
  }

  predicate AllScalar(slots: seq<Slot>) {
    forall k | 0 <= k < |slots| :: slots[k].Leaf? ==> Scalar(slots[k].kind)
  }

  /** The server takes a body apart: every leaf gets its bytes, every array length must be the declared one. */
  function Unpack(slots: seq<Slot>, b: seq<Byte>): Option<Store>
    requires AllScalar(slots)
  {
    if slots == [] then if b == [] then Some(map[]) else None
    else
      var w := SlotWidth(slots[0]);
      if |b| < w then None
      else
        match Unpack(slots[1..], b[w..])
        case None => None
        case Some(rest) =>
          match slots[0]
          case ArrayLen(n) => if b[..w] == Le(n, 4) then Some(rest) else None
          case Leaf(path, kind) => Some(Insert(path, ReadLeaf(kind, b[..w]), rest))
  }

  /** `rest` comes later in the body and wins. */
  function Insert(path: string, v: Variant, rest: Store): Store {
    map[path := v] + rest
  }

  /** A leaf for which both ways of writing store the same. */
  predicate SameEitherWay(m: Machine, k: Kind, v: PlcValue) {
    Coerce(m, v, k).Some? && EncodeLeaf(m, k, Some(v)).Ok?
      && (k == F32 && v.Single? ==> m.narrow(m.widen(v.bits)) == v.bits)
  }

  /** Every leaf is given, and given such a value. */
  predicate AllSame(m: Machine, slots: seq<Slot>, values: Given) {
    forall k | 0 <= k < |slots| && slots[k].Leaf? ::
      && Scalar(slots[k].kind)
      && slots[k].path in values && WfValue(values[slots[k].path])
      && SameEitherWay(m, slots[k].kind, values[slots[k].path])
  }

  /** The writes of the leaves one by one, in declaration order. */
  function LeafWrites(m: Machine, slots: seq<Slot>, values: Given): Store
    requires AllSame(m, slots, values)
  {
    if slots == [] then map[]
    else if slots[0].ArrayLen? then LeafWrites(m, slots[1..], values)
    else
      assert SameEitherWay(m, slots[0].kind, values[slots[0].path]);
      Insert(slots[0].path, Coerce(m, values[slots[0].path], slots[0].kind).value, LeafWrites(m, slots[1..], values))
  }

  /** One struct write means the same as the leaf writes it replaces. */
  lemma {:induction false} StructWriteIsLeafWrites(m: Machine, slots: seq<Slot>, values: Given)
    requires Lawful(m) && AllSame(m, slots, values)
    ensures AllScalar(slots) && Body(m, slots, values).Ok?
    ensures Unpack(slots, Body(m, slots, values).value) == Some(LeafWrites(m, slots, values))
  {
    if slots != [] {
      var head, rest := slots[0], slots[1..];
      StructWriteIsLeafWrites(m, rest, values);
      SlotBytesWidth(m, head, values);
      if head.Leaf? {
        var v := values[head.path];
        assert SameEitherWay(m, head.kind, v);
        SameStored(m, head.kind, v);
      }
      var b, more := SlotBytes(m, head, values).value, Body(m, rest, values).value;
      assert (b + more)[..|b|] == b && (b + more)[|b|..] == more;
    }
  }

  /** What is stored for a leaf whose path stands in the struct once. */
  lemma {:induction false} LeafWritten(m: Machine, slots: seq<Slot>, values: Given, k: nat)
    requires AllSame(m, slots, values) && k < |slots| && slots[k].Leaf?
    requires forall j | 0 <= j < |slots| && slots[j].Leaf? && slots[j].path == slots[k].path :: slots[j].kind == slots[k].kind
    ensures slots[k].path in LeafWrites(m, slots, values)
    ensures SameEitherWay(m, slots[k].kind, values[slots[k].path])
    ensures LeafWrites(m, slots, values)[slots[k].path] == Coerce(m, values[slots[k].path], slots[k].kind).value
  {
    assert SameEitherWay(m, slots[k].kind, values[slots[k].path]);
    if k > 0 {
      LeafWritten(m, slots[1..], values, k - 1);
    } else if slots[0].path in LeafWrites(m, slots[1..], values) {
      LeafOf(m, slots[1..], values, slots[0].path);
      var j :| 0 <= j < |slots[1..]| && slots[1..][j].Leaf? && slots[1..][j].path == slots[0].path;
      assert slots[j + 1].path == slots[0].path;
      LeafWritten(m, slots[1..], values, j);
    }
  }

  lemma {:induction false} LeafOf(m: Machine, slots: seq<Slot>, values: Given, path: string)
    requires AllSame(m, slots, values)
    ensures path in LeafWrites(m, slots, values) <==> exists j :: 0 <= j < |slots| && slots[j].Leaf? && slots[j].path == path
  {
    if slots != [] {
      LeafOf(m, slots[1..], values, path);
      if path in LeafWrites(m, slots[1..], values) {
        var j :| 0 <= j < |slots[1..]| && slots[1..][j].Leaf? && slots[1..][j].path == path;
        assert slots[j + 1].path == path;
      }
      if j :| 0 <= j < |slots| && slots[j].Leaf? && slots[j].path == path {
        if j > 0 { assert slots[1..][j - 1].path == path; }
      }
    }
  }

  // ---------------------------------------------------------------- verifying a layout

  datatype Mismatch = NotEncodable(error: EncodeError) | Lengths(encoded: nat, server: nat) | Differs(at: nat)

  function FirstDifference(a: seq<Byte>, b: seq<Byte>): (i: nat)
    requires |a| == |b|
    ensures i <= |a| && a[..i] == b[..i] && (i < |a| ==> a[i] != b[i])
  {
    if a == [] || a[0] != b[0] then 0
    else
      var i := FirstDifference(a[1..], b[1..]);
      assert a[..i + 1] == [a[0]] + a[1..][..i] && b[..i + 1] == [b[0]] + b[1..][..i];
      i + 1
  }

  predicate FirstDiffers(a: seq<Byte>, b: seq<Byte>, i: nat) {
    |a| == |b| && i < |a| && a[..i] == b[..i] && a[i] != b[i]
  }

  /** `verify` */
  method Verify(m: Machine, spec: Spec, values: Given, raw: seq<Byte>) returns (r: Result<(), Mismatch>)
    ensures r.Ok? <==> Body(m, spec.slots, values) == Ok(raw)
    ensures r.Err? && r.error.NotEncodable? ==> Body(m, spec.slots, values) == Err(r.error.error)
    ensures r.Err? && r.error.Lengths? ==> r.error.encoded == BodyWidth(spec.slots) && r.error.server == |raw| && |raw| != BodyWidth(spec.slots)
    ensures r.Err? && r.error.Differs? ==> Body(m, spec.slots, values).Ok? && FirstDiffers(Body(m, spec.slots, values).value, raw, r.error.at)
  {
    var encoded := Encode(m, spec, values);
    BodyLength(m, spec.slots, values);
    if encoded.Err? { return Err(NotEncodable(encoded.error)); }
    var enc := encoded.value;
    if |enc| != |raw| { return Err(Lengths(|enc|, |raw|)); }
    var i := FirstDifference(enc, raw);
    if i < |enc| { return Err(Differs(i)); }
    assert enc == enc[..i] && raw == raw[..i];
    return Ok(());
  }

  /** The value has the kind of its leaf, as a value read from the server does. */
  predicate OfKind(v: PlcValue, k: Kind) {
    match v
    case Flag(_) => k == Bool
    case Int(kind, _) => k == kind
    case Single(_) => k == F32
    case Double(_) => k == F64
    case Text(_) => false
  }

  /** The leaf values of a read, none of them a NaN single. */
  ghost predicate AllOfKind(m: Machine, slots: seq<Slot>, values: Given) {
    forall k | 0 <= k < |slots| && slots[k].Leaf? ::
      && slots[k].path in values && WfValue(values[slots[k].path]) && OfKind(values[slots[k].path], slots[k].kind)
      && (values[slots[k].path].Single? ==> !m.meaning(m.widen(values[slots[k].path].bits)).NotANumber?)
  }

  lemma OwnKind(m: Machine, k: Kind, v: PlcValue)
    requires Lawful(m) && WfValue(v) && OfKind(v, k)
    requires v.Single? ==> !m.meaning(m.widen(v.bits)).NotANumber?
    ensures Scalar(k) && SameEitherWay(m, k, v) && Coerce(m, v, k).value == Native(v)
  {
    AcceptedByBoth(m, k, v);
    match v
    case Flag(b) => assert m.meaning(m.double(if b then 1 else 0)) == Finite((if b then 1 else 0) as real);
    case Int(_, i) => assert m.meaning(m.double(i)) == Finite(i as real);
    case _ =>
  }

  /** When the values read from the leaves encode to the body read from the struct, taking this body apart by the declared
      layout gives back exactly the values of the leaves. */
  lemma VerifiedLayout(m: Machine, spec: Spec, values: Given, raw: seq<Byte>, k: nat)
    requires Lawful(m) && AllOfKind(m, spec.slots, values)
    requires Body(m, spec.slots, values) == Ok(raw)
    requires k < |spec.slots| && spec.slots[k].Leaf?
    ensures AllScalar(spec.slots) && Unpack(spec.slots, raw).Some? && spec.slots[k].path in Unpack(spec.slots, raw).value
    ensures Unpack(spec.slots, raw).value[spec.slots[k].path] == Native(values[spec.slots[k].path])
  {
    var slots := spec.slots;
    forall j | 0 <= j < |slots| && slots[j].Leaf?
      ensures Scalar(slots[j].kind) && SameEitherWay(m, slots[j].kind, values[slots[j].path])
    {
      OwnKind(m, slots[j].kind, values[slots[j].path]);
    }
    StructWriteIsLeafWrites(m, slots, values);
    OwnKind(m, slots[k].kind, values[slots[k].path]);
    LeafWritten(m, slots, values, k);
  }

  // ---------------------------------------------------------------- the node of a struct

  datatype NodeId = Named(ns: nat, name: string) | Other(ns: nat)

  predicate Plain(name: string) {
    forall c | c in name :: c != '.' && c != '['
  }

  predicate DirectlyIn(member: string, path: string, name: string) {
    path == member + "." + name && Plain(name)
  }

  function NameIn(member: string, path: string): (r: Option<string>)
    ensures r.Some? ==> DirectlyIn(member, path, r.value)
    ensures r.None? ==> forall name :: !DirectlyIn(member, path, name)
  {
    var prefix := member + ".";
    if |path| >= |prefix| && path[..|prefix|] == prefix && Plain(path[|prefix|..]) then Some(path[|prefix|..])
    else
      assert forall name: string :: (prefix + name)[..|prefix|] == prefix && (prefix + name)[|prefix|..] == name;
      None
  }

  /** `direct_leaf`: position of the first leaf right below the struct, or the number of slots. */
  function DirectLeaf(member: string, slots: seq<Slot>): (k: nat)
    ensures k <= |slots|
    ensures k < |slots| ==> slots[k].Leaf? && NameIn(member, slots[k].path).Some?
    ensures forall j | 0 <= j < k :: slots[j].Leaf? ==> NameIn(member, slots[j].path).None?
  {
    if slots == [] || (slots[0].Leaf? && NameIn(member, slots[0].path).Some?) then 0 else 1 + DirectLeaf(member, slots[1..])
  }

  function StripSuffix(s: string, suffix: string): Option<string> {
    if |s| >= |suffix| && s[|s| - |suffix|..] == suffix then Some(s[..|s| - |suffix|]) else None
  }

  /** `struct_node` */
  function StructNode(spec: Spec, ids: map<string, NodeId>): Option<NodeId> {
    var k := DirectLeaf(spec.member, spec.slots);
    if k == |spec.slots| || spec.slots[k].path !in ids || ids[spec.slots[k].path].Other? then None
    else
      var id := ids[spec.slots[k].path];
      var base := StripSuffix(id.name, ".\"" + NameIn(spec.member, spec.slots[k].path).value + "\"");
      if base.Some? then Some(Named(id.ns, base.value)) else None
  }

  /** The struct node is the one below which the server names the first direct leaf by its quoted name; there is none else. */
  lemma StructNodeIsParent(spec: Spec, ids: map<string, NodeId>, ns: nat, base: string)
    ensures var k := DirectLeaf(spec.member, spec.slots);
      StructNode(spec, ids) == Some(Named(ns, base)) <==>
        && k < |spec.slots| && spec.slots[k].path in ids
        && ids[spec.slots[k].path] == Named(ns, base + ".\"" + NameIn(spec.member, spec.slots[k].path).value + "\"")
  {
    var k := DirectLeaf(spec.member, spec.slots);
    if k < |spec.slots| && spec.slots[k].path in ids && ids[spec.slots[k].path].Named? {
      var suffix := ".\"" + NameIn(spec.member, spec.slots[k].path).value + "\"";
      Stripped(ids[spec.slots[k].path].name, suffix, base);
      assert base + suffix == base + ".\"" + NameIn(spec.member, spec.slots[k].path).value + "\"";
    }
  }

  lemma Stripped(s: string, suffix: string, base: string)
    ensures StripSuffix(s, suffix) == Some(base) <==> s == base + suffix
  {
    assert (base + suffix)[..|base|] == base && (base + suffix)[|base|..] == suffix;
    if |s| >= |suffix| { assert s == s[..|s| - |suffix|] + s[|s| - |suffix|..]; }
  }

  // ---------------------------------------------------------------- which bodies the server can take apart

  function BytesOf(slots: seq<Slot>): nat {
    if slots == [] then 0 else SlotWidth(slots[0]) + BytesOf(slots[1..])
  }

  /** Where the bytes of slot `k` begin. */
  function BytesBefore(slots: seq<Slot>, k: nat): nat
    requires k <= |slots|
  {
    if k == 0 then 0 else SlotWidth(slots[0]) + BytesBefore(slots[1..], k - 1)
  }

  lemma {:induction false} BeforeEnd(slots: seq<Slot>, k: nat)
    requires k < |slots|
    ensures BytesBefore(slots, k) + SlotWidth(slots[k]) <= BytesOf(slots)
  {
    if k > 0 { BeforeEnd(slots[1..], k - 1); }
  }

  /** Slot `k` is no array length, or the declared one stands there. */
  predicate LengthAt(slots: seq<Slot>, b: seq<Byte>, k: nat)
    requires k < |slots|
  {
    slots[k].ArrayLen? ==>
      BytesBefore(slots, k) + 4 <= |b| && b[BytesBefore(slots, k)..BytesBefore(slots, k) + 4] == Le(slots[k].n, 4)
  }

  lemma LengthShift(slots: seq<Slot>, b: seq<Byte>, k: nat)
    requires 0 < k < |slots| && SlotWidth(slots[0]) <= |b|
    ensures LengthAt(slots, b, k) <==> LengthAt(slots[1..], b[SlotWidth(slots[0])..], k - 1)
  {
    var w, at := SlotWidth(slots[0]), BytesBefore(slots[1..], k - 1);
    assert BytesBefore(slots, k) == w + at;
    if at + 4 <= |b[w..]| { assert b[w..][at..at + 4] == b[w + at..w + at + 4]; }
  }

  /** A body can be taken apart exactly when it has the bytes of the layout, no more, and every array length is the declared one. */
  lemma {:induction false} UnpackExactly(slots: seq<Slot>, b: seq<Byte>)
    requires AllScalar(slots)
    ensures Unpack(slots, b).Some? <==> |b| == BytesOf(slots) && forall k | 0 <= k < |slots| :: LengthAt(slots, b, k)
  {
    if slots != [] {
      var w, rest := SlotWidth(slots[0]), slots[1..];
      if |b| >= w {
        UnpackExactly(rest, b[w..]);
        assert BytesBefore(slots, 0) == 0;
        if Unpack(slots, b).Some? {
          forall k | 0 <= k < |slots| ensures LengthAt(slots, b, k) {
            if k > 0 { LengthShift(slots, b, k); }
          }
        } else if |b| == BytesOf(slots) && LengthAt(slots, b, 0) {
          var k: nat :| k < |rest| && !LengthAt(rest, b[w..], k);
          LengthShift(slots, b, k + 1);
        }
      }
    }
  }
}
