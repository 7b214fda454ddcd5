/** What a packed submission means: which members it carries, and that the server holds the same afterwards as after the leaf
    writes. `crates/opcua-cmd/src/writer.rs` and `crates/opcua-cmd/src/structs.rs`. */
module PackMeaning {
  import opened Wrappers
  import opened Values
  import opened Structs
  import opened Pack

  /** Two members with the same key go to the same place. */
  lemma SameOwner(structs: map<string, Verified>, members: seq<Item>, owners: seq<Option<string>>, i: nat, j: nat)
    requires OwnersOk(structs, members, owners)
    requires i < |members| && j < |members| && members[i].key == members[j].key
    ensures owners[i] == owners[j]
  {
  }

  // ---------------------------------------------------------------- which members a packed submission carries

  predicate InExtra(structs: map<string, Verified>, extra: seq<Extra>, j: nat, key: string) {
    j < |extra| && extra[j].member in structs && IsLeaf(structs[extra[j].member].spec.slots, key)
  }

  /** Some write of the packed submission carries this member. */
  ghost predicate Carried(structs: map<string, Verified>, p: Packed, key: string) {
    HasKey(p.rest, key) || exists j: nat :: InExtra(structs, p.extra, j, key)
  }

  lemma RestHas(members: seq<Item>, owners: seq<Option<string>>, key: string)
    requires |owners| == |members|
    ensures HasKey(Rest(members, owners), key) <==> exists i :: FreeAt(members, owners, key, i)
  {
    if HasKey(Rest(members, owners), key) { var i := RestComesFrom(members, owners, key); }
    if i :| FreeAt(members, owners, key, i) { RestKeeps(members, owners, key, i); }
  }

  /** Member `i` has this key and was put into no struct. */
  predicate FreeAt(members: seq<Item>, owners: seq<Option<string>>, key: string, i: int) {
    0 <= i < |members| && i < |owners| && owners[i].None? && members[i].key == key
  }

  lemma {:induction false} RestComesFrom(members: seq<Item>, owners: seq<Option<string>>, key: string) returns (i: nat)
    requires |owners| == |members| && HasKey(Rest(members, owners), key)
    ensures FreeAt(members, owners, key, i)
  {
    var n := |members| - 1;
    if FreeAt(members, owners, key, n) {
      i := n;
    } else {
      if owners[n].None? { HasKeySnoc(Rest(members[..n], owners[..n]), members[n], key); }
      i := RestComesFrom(members[..n], owners[..n], key);
    }
  }

  lemma {:induction false} RestKeeps(members: seq<Item>, owners: seq<Option<string>>, key: string, i: nat)
    requires |owners| == |members| && FreeAt(members, owners, key, i)
    ensures HasKey(Rest(members, owners), key)
  {
    var n := |members| - 1;
    var front := Rest(members[..n], owners[..n]);
    if i < n { RestKeeps(members[..n], owners[..n], key, i); }
    if owners[n].None? { HasKeySnoc(front, members[n], key); } else { assert Rest(members, owners) == front; }
  }

  lemma {:induction false} GroupHas(members: seq<Item>, owners: seq<Option<string>>, s: string, key: string)
    requires |owners| == |members|
    ensures key in Group(members, owners, s) <==> exists i :: 0 <= i < |members| && owners[i] == Some(s) && members[i].key == key
  {
    if members != [] {
      var n := |members| - 1;
      GroupHas(members[..n], owners[..n], s, key);
      if i :| 0 <= i < |members| && owners[i] == Some(s) && members[i].key == key {
        if i < n { assert owners[..n][i] == Some(s) && members[..n][i].key == key; }
      }
    }
  }

  lemma LeafGiven(m: Machine, structs: map<string, Verified>, values: Given, e: Extra, key: string)
    requires ExtraOk(m, structs, values, e) && IsLeaf(structs[e.member].spec.slots, key)
    ensures key in values
  {
    var k :| 0 <= k < |structs[e.member].spec.slots| && structs[e.member].spec.slots[k].Leaf? && structs[e.member].spec.slots[k].path == key;
  }

  lemma ExtraGiven(m: Machine, structs: map<string, Verified>, members: seq<Item>, owners: seq<Option<string>>, p: Packed, j: nat, key: string)
    requires PackedBy(m, structs, members, owners, p) && InExtra(structs, p.extra, j, key)
    ensures key in Group(members, owners, p.extra[j].member)
  {
    LeafGiven(m, structs, Group(members, owners, p.extra[j].member), p.extra[j], key);
  }

  /** A packed submission carries members that were given, no others. */
  lemma NothingAdded(m: Machine, structs: map<string, Verified>, members: seq<Item>, owners: seq<Option<string>>, p: Packed, key: string)
    requires PackedBy(m, structs, members, owners, p) && Carried(structs, p, key)
    ensures HasKey(members, key)
  {
    RestHas(members, owners, key);
    if !HasKey(p.rest, key) {
      var j: nat :| InExtra(structs, p.extra, j, key);
      ExtraGiven(m, structs, members, owners, p, j, key);
      GroupHas(members, owners, p.extra[j].member, key);
    }
  }

  /** A struct write that carries the key of a member is the one of the struct that the member was put into. */
  lemma ExtraIsOwn(m: Machine, structs: map<string, Verified>, members: seq<Item>, owners: seq<Option<string>>, p: Packed, j: nat, i: nat)
    requires PackedBy(m, structs, members, owners, p) && i < |members| && InExtra(structs, p.extra, j, members[i].key)
    ensures owners[i] == Some(p.extra[j].member)
  {
    ExtraGiven(m, structs, members, owners, p, j, members[i].key);
    GroupHas(members, owners, p.extra[j].member, members[i].key);
    var k: nat :| k < |members| && owners[k] == Some(p.extra[j].member) && members[k].key == members[i].key;
    SameOwner(structs, members, owners, i, k);
  }

  lemma OwnedNotInRest(structs: map<string, Verified>, members: seq<Item>, owners: seq<Option<string>>, i: nat)
    requires OwnersOk(structs, members, owners) && i < |members| && owners[i].Some?
    ensures !HasKey(Rest(members, owners), members[i].key)
  {
    RestHas(members, owners, members[i].key);
    if j: nat :| FreeAt(members, owners, members[i].key, j) { SameOwner(structs, members, owners, i, j); }
  }

  /** A given member is carried exactly when it lies in no struct or is a leaf of the layout of the struct it was put into;
      anything else under a packed struct is lost. Structs may lie inside each other, and members may repeat. */
  lemma CarriedExactly(m: Machine, structs: map<string, Verified>, members: seq<Item>, owners: seq<Option<string>>, p: Packed, i: nat)
    requires PackedBy(m, structs, members, owners, p) && i < |members|
    ensures owners[i].Some? ==> owners[i].value in structs && Under(members[i].key, owners[i].value)
    ensures owners[i].None? <==> forall s | s in structs :: !Under(members[i].key, s)
    ensures Carried(structs, p, members[i].key) <==> owners[i].None? || IsLeaf(structs[owners[i].value].spec.slots, members[i].key)
  {
    var key := members[i].key;
    assert OwnerOk(structs, members[i], owners[i]);
    if owners[i].None? {
      assert FreeAt(members, owners, key, i);
      RestHas(members, owners, key);
    } else {
      OwnedNotInRest(structs, members, owners, i);
      if IsLeaf(structs[owners[i].value].spec.slots, key) {
        assert HasExtra(p.extra, owners[i].value);
        var j: nat :| j < |p.extra| && p.extra[j].member == owners[i].value;
        assert InExtra(structs, p.extra, j, key);
      }
      if j: nat :| InExtra(structs, p.extra, j, key) { ExtraIsOwn(m, structs, members, owners, p, j, i); }
    }
  }

  // ---------------------------------------------------------------- what the server holds

  type Kinds = map<string, Kind>

  function KindOf(kinds: Kinds, key: string): Kind {
    if key in kinds then kinds[key] else Unknown
  }

  predicate LeafOk(m: Machine, kinds: Kinds, c: Item) {
    Coerce(m, c.value, KindOf(kinds, c.key)).Some?
  }

  predicate LeavesOk(m: Machine, kinds: Kinds, members: seq<Item>) {
    forall i | 0 <= i < |members| :: LeafOk(m, kinds, members[i])
  }

  /** The store after the leaf writes, one after the other. */
  function LeafStore(m: Machine, kinds: Kinds, members: seq<Item>): Store
    requires LeavesOk(m, kinds, members)
  {
    if members == [] then map[]
    else
      var c := members[|members| - 1];
      LeafStore(m, kinds, members[..|members| - 1])[c.key := Coerce(m, c.value, KindOf(kinds, c.key)).value]
  }

  predicate Readable(structs: map<string, Verified>, e: Extra) {
    e.member in structs && AllScalar(structs[e.member].spec.slots) && Unpack(structs[e.member].spec.slots, e.body).Some?
  }

  predicate AllReadable(structs: map<string, Verified>, extra: seq<Extra>) {
    forall j | 0 <= j < |extra| :: Readable(structs, extra[j])
  }

  /** The store after the struct writes. */
  function ExtraStore(structs: map<string, Verified>, extra: seq<Extra>): Store
    requires AllReadable(structs, extra)
  {
    if extra == [] then map[]
    else
      var e := extra[|extra| - 1];
      assert Readable(structs, e);
      ExtraStore(structs, extra[..|extra| - 1]) + Unpack(structs[e.member].spec.slots, e.body).value
  }

  /** All members with this key go to the rest: it ends up as if they had been written as leaves. */
  lemma {:induction false} RestStore(m: Machine, kinds: Kinds, members: seq<Item>, owners: seq<Option<string>>, key: string)
    requires |owners| == |members| && LeavesOk(m, kinds, members)
    requires forall i | 0 <= i < |members| && members[i].key == key :: owners[i].None?
    ensures LeavesOk(m, kinds, Rest(members, owners))
    ensures key in LeafStore(m, kinds, members) <==> key in LeafStore(m, kinds, Rest(members, owners))
    ensures key in LeafStore(m, kinds, members) ==> LeafStore(m, kinds, members)[key] == LeafStore(m, kinds, Rest(members, owners))[key]
  {
    if members != [] {
      var n := |members| - 1;
      RestStore(m, kinds, members[..n], owners[..n], key);
      assert LeafOk(m, kinds, members[n]) && members == members[..n] + [members[n]];
      var front := Rest(members[..n], owners[..n]);
      LeafStoreSnoc(m, kinds, members[..n], members[n]);
      if owners[n].None? { LeafStoreSnoc(m, kinds, front, members[n]); } else { assert Rest(members, owners) == front; }
    }
  }

  lemma LeafStoreSnoc(m: Machine, kinds: Kinds, members: seq<Item>, c: Item)
    requires LeavesOk(m, kinds, members) && LeafOk(m, kinds, c)
    ensures LeavesOk(m, kinds, members + [c])
    ensures LeafStore(m, kinds, members + [c]) == LeafStore(m, kinds, members)[c.key := Coerce(m, c.value, KindOf(kinds, c.key)).value]
  {
    assert (members + [c])[..|members|] == members;
  }

  /** All members with this key go to struct `s`: its group holds the value that the leaf writes would have left. */
  lemma {:induction false} GroupStore(m: Machine, kinds: Kinds, members: seq<Item>, owners: seq<Option<string>>, s: string, key: string)
    requires |owners| == |members| && LeavesOk(m, kinds, members)
    requires forall i | 0 <= i < |members| && members[i].key == key :: owners[i] == Some(s)
    ensures key in LeafStore(m, kinds, members) <==> key in Group(members, owners, s)
    ensures key in Group(members, owners, s) ==>
      Coerce(m, Group(members, owners, s)[key], KindOf(kinds, key)) == Some(LeafStore(m, kinds, members)[key])
  {
    if members != [] {
      var n := |members| - 1;
      GroupStore(m, kinds, members[..n], owners[..n], s, key);
      assert LeafOk(m, kinds, members[n]);
    }
  }

  /** The value of a group comes from a member with this key. */
  lemma {:induction false} GroupValue(members: seq<Item>, owners: seq<Option<string>>, s: string, key: string)
    requires |owners| == |members| && key in Group(members, owners, s)
    ensures exists i :: 0 <= i < |members| && owners[i] == Some(s) && members[i].key == key && members[i].value == Group(members, owners, s)[key]
  {
    var n := |members| - 1;
    if !(owners[n] == Some(s) && members[n].key == key) {
      GroupValue(members[..n], owners[..n], s, key);
      var i :| 0 <= i < n && owners[..n][i] == Some(s) && members[..n][i].key == key && members[..n][i].value == Group(members[..n], owners[..n], s)[key];
      assert owners[i] == Some(s) && members[i].key == key;
    }
  }

  /** The members may be packed: none under a struct is lost, the node map knows the leaves by the kinds of the layout, and
      both ways of writing take the value of a packed leaf to the same thing. */
  predicate Packable(m: Machine, kinds: Kinds, structs: map<string, Verified>, members: seq<Item>, owners: seq<Option<string>>) {
    && |owners| == |members|
    && (forall s, k: nat | s in structs && k < |structs[s].spec.slots| && structs[s].spec.slots[k].Leaf? ::
          KindOf(kinds, structs[s].spec.slots[k].path) == structs[s].spec.slots[k].kind)
    && (forall i | 0 <= i < |members| && owners[i].Some? :: PackableMember(m, kinds, structs, members[i], owners[i].value))
  }

  predicate PackableMember(m: Machine, kinds: Kinds, structs: map<string, Verified>, c: Item, s: string) {
    && s in structs && IsLeaf(structs[s].spec.slots, c.key) && WfValue(c.value)
    && Scalar(KindOf(kinds, c.key)) && SameEitherWay(m, KindOf(kinds, c.key), c.value)
  }

  lemma GroupIsSame(m: Machine, kinds: Kinds, structs: map<string, Verified>, members: seq<Item>, owners: seq<Option<string>>, s: string)
    requires Packable(m, kinds, structs, members, owners) && s in structs
    requires Complete(structs[s].spec.slots, Group(members, owners, s))
    ensures AllSame(m, structs[s].spec.slots, Group(members, owners, s))
  {
    var slots, values := structs[s].spec.slots, Group(members, owners, s);
    forall k: nat | k < |slots| && slots[k].Leaf?
      ensures Scalar(slots[k].kind) && WfValue(values[slots[k].path]) && SameEitherWay(m, slots[k].kind, values[slots[k].path])
    {
      GroupValue(members, owners, s, slots[k].path);
      var i :| 0 <= i < |members| && owners[i] == Some(s) && members[i].key == slots[k].path && members[i].value == values[slots[k].path];
      assert PackableMember(m, kinds, structs, members[i], s);
    }
  }

  predicate StoredAs(m: Machine, kinds: Kinds, values: Given, store: Store, key: string) {
    key in values && key in store && Coerce(m, values[key], KindOf(kinds, key)) == Some(store[key])
  }

  /** A body written for struct `s` is read back as the values of its group. */
  lemma ExtraReads(m: Machine, kinds: Kinds, structs: map<string, Verified>, members: seq<Item>, owners: seq<Option<string>>, e: Extra)
    requires Lawful(m) && Packable(m, kinds, structs, members, owners) && ExtraOk(m, structs, Group(members, owners, e.member), e)
    ensures Readable(structs, e)
    ensures forall key :: key in Unpack(structs[e.member].spec.slots, e.body).value <==> IsLeaf(structs[e.member].spec.slots, key)
    ensures forall key | IsLeaf(structs[e.member].spec.slots, key) ::
      StoredAs(m, kinds, Group(members, owners, e.member), Unpack(structs[e.member].spec.slots, e.body).value, key)
  {
    var slots, values := structs[e.member].spec.slots, Group(members, owners, e.member);
    GroupIsSame(m, kinds, structs, members, owners, e.member);
    StructWriteIsLeafWrites(m, slots, values);
    forall key ensures key in LeafWrites(m, slots, values) <==> IsLeaf(slots, key) { LeafOf(m, slots, values, key); }
    forall key | IsLeaf(slots, key)
      ensures StoredAs(m, kinds, values, LeafWrites(m, slots, values), key)
    {
      var k: nat :| k < |slots| && slots[k].Leaf? && slots[k].path == key;
      LeafWritten(m, slots, values, k);
    }
  }

  /** What struct write `j` stores. */
  function StoreOf(structs: map<string, Verified>, e: Extra): Store
    requires Readable(structs, e)
  {
    Unpack(structs[e.member].spec.slots, e.body).value
  }

  predicate StoredBy(structs: map<string, Verified>, extra: seq<Extra>, key: string, v: Variant, j: nat)
    requires AllReadable(structs, extra)
  {
    j < |extra| && assert Readable(structs, extra[j]); key in StoreOf(structs, extra[j]) && StoreOf(structs, extra[j])[key] == v
  }

  /** A stored value comes from one of the struct writes, and each of them stores its keys. */
  lemma {:induction false} ExtraStoreHas(structs: map<string, Verified>, extra: seq<Extra>, key: string)
    requires AllReadable(structs, extra)
    ensures key in ExtraStore(structs, extra) ==> exists j: nat :: StoredBy(structs, extra, key, ExtraStore(structs, extra)[key], j)
    ensures key !in ExtraStore(structs, extra) ==> forall j, v :: !StoredBy(structs, extra, key, v, j)
  {
    if extra != [] {
      var n := |extra| - 1;
      assert Readable(structs, extra[n]);
      ExtraStoreHas(structs, extra[..n], key);
      if key in ExtraStore(structs, extra) {
        var v := ExtraStore(structs, extra)[key];
        if key in StoreOf(structs, extra[n]) {
          assert StoredBy(structs, extra, key, v, n);
        } else {
          var j: nat :| StoredBy(structs, extra[..n], key, v, j);
          assert StoredBy(structs, extra, key, v, j);
        }
      } else {
        forall j: nat, v ensures !StoredBy(structs, extra, key, v, j) {
          if j < n { assert !StoredBy(structs, extra[..n], key, v, j); }
        }
      }
    }
  }

  lemma AllExtrasRead(m: Machine, kinds: Kinds, structs: map<string, Verified>, members: seq<Item>, owners: seq<Option<string>>, p: Packed)
    requires Lawful(m) && Packable(m, kinds, structs, members, owners) && PackedBy(m, structs, members, owners, p)
    ensures AllReadable(structs, p.extra)
  {
    forall j | 0 <= j < |p.extra| ensures Readable(structs, p.extra[j]) {
      ExtraReads(m, kinds, structs, members, owners, p.extra[j]);
    }
  }

  /** A key that no struct got: only the rest writes it. */
  lemma OutsideStructs(m: Machine, kinds: Kinds, structs: map<string, Verified>, members: seq<Item>, owners: seq<Option<string>>, p: Packed, key: string)
    requires Lawful(m) && Packable(m, kinds, structs, members, owners) && PackedBy(m, structs, members, owners, p)
    requires AllReadable(structs, p.extra) && forall i | 0 <= i < |members| && members[i].key == key :: owners[i].None?
    ensures key !in ExtraStore(structs, p.extra)
  {
    ExtraStoreHas(structs, p.extra, key);
    if key in ExtraStore(structs, p.extra) {
      var j: nat :| StoredBy(structs, p.extra, key, ExtraStore(structs, p.extra)[key], j);
      ExtraReads(m, kinds, structs, members, owners, p.extra[j]);
      ExtraGiven(m, structs, members, owners, p, j, key);
      GroupHas(members, owners, p.extra[j].member, key);
    }
  }

  /** Member `i` was put into struct `s`: only the write of that struct writes its key. */
  lemma InsideStruct(m: Machine, kinds: Kinds, structs: map<string, Verified>, members: seq<Item>, owners: seq<Option<string>>, p: Packed, s: string, i: nat)
    requires Lawful(m) && Packable(m, kinds, structs, members, owners) && PackedBy(m, structs, members, owners, p)
    requires AllReadable(structs, p.extra) && i < |members| && owners[i] == Some(s)
    ensures StoredAs(m, kinds, Group(members, owners, s), ExtraStore(structs, p.extra), members[i].key)
  {
    var key := members[i].key;
    ExtraStoreHas(structs, p.extra, key);
    var k := GroupIsStored(m, kinds, structs, members, owners, p, s, i);
    assert StoredBy(structs, p.extra, key, StoreOf(structs, p.extra[k])[key], k);
    var j: nat :| StoredBy(structs, p.extra, key, ExtraStore(structs, p.extra)[key], j);
    ExtraReads(m, kinds, structs, members, owners, p.extra[j]);
    ExtraIsOwn(m, structs, members, owners, p, j, i);
    assert StoredAs(m, kinds, Group(members, owners, s), StoreOf(structs, p.extra[j]), key);
  }

  lemma GroupIsStored(m: Machine, kinds: Kinds, structs: map<string, Verified>, members: seq<Item>, owners: seq<Option<string>>, p: Packed, s: string, i: nat)
    returns (j: nat)
    requires Lawful(m) && Packable(m, kinds, structs, members, owners) && PackedBy(m, structs, members, owners, p)
    requires i < |members| && owners[i] == Some(s) && AllReadable(structs, p.extra)
    ensures j < |p.extra| && Readable(structs, p.extra[j]) && members[i].key in StoreOf(structs, p.extra[j])
  {
    assert PackableMember(m, kinds, structs, members[i], s) && HasExtra(p.extra, s);
    j :| 0 <= j < |p.extra| && p.extra[j].member == s;
    ExtraReads(m, kinds, structs, members, owners, p.extra[j]);
  }

  /** After the struct writes and the remaining leaf writes the server holds what it would hold after all leaf writes. */
  lemma PackedMeansLeafWrites(m: Machine, kinds: Kinds, structs: map<string, Verified>, members: seq<Item>, owners: seq<Option<string>>, p: Packed)
    requires Lawful(m) && LeavesOk(m, kinds, members)
    requires PackedBy(m, structs, members, owners, p) && Packable(m, kinds, structs, members, owners)
    ensures AllReadable(structs, p.extra) && LeavesOk(m, kinds, p.rest)
    ensures PackedStore(m, kinds, structs, p) == LeafStore(m, kinds, members)
  {
    AllExtrasRead(m, kinds, structs, members, owners, p);
    RestOk(m, kinds, members, owners);
    forall key ensures AgreeAt(PackedStore(m, kinds, structs, p), LeafStore(m, kinds, members), key) {
      SameAt(m, kinds, structs, members, owners, p, key);
    }
    AgreeEverywhere(PackedStore(m, kinds, structs, p), LeafStore(m, kinds, members));
  }

  /** The store after the struct writes and then the remaining leaf writes. */
  function PackedStore(m: Machine, kinds: Kinds, structs: map<string, Verified>, p: Packed): Store
    requires AllReadable(structs, p.extra) && LeavesOk(m, kinds, p.rest)
  {
    ExtraStore(structs, p.extra) + LeafStore(m, kinds, p.rest)
  }

  predicate AgreeAt(a: Store, b: Store, key: string) {
    (key in a <==> key in b) && (key in a && key in b ==> a[key] == b[key])
  }

  lemma AgreeEverywhere(a: Store, b: Store)
    requires forall key :: AgreeAt(a, b, key)
    ensures a == b
  {
    forall key ensures key in a <==> key in b { assert AgreeAt(a, b, key); }
    forall key | key in a ensures a[key] == b[key] { assert AgreeAt(a, b, key); }
  }

  lemma {:induction false} RestOk(m: Machine, kinds: Kinds, members: seq<Item>, owners: seq<Option<string>>)
    requires |owners| == |members| && LeavesOk(m, kinds, members)
    ensures LeavesOk(m, kinds, Rest(members, owners))
  {
    if members != [] {
      RestOk(m, kinds, members[..|members| - 1], owners[..|members| - 1]);
      assert LeafOk(m, kinds, members[|members| - 1]);
    }
  }

  lemma SameAt(m: Machine, kinds: Kinds, structs: map<string, Verified>, members: seq<Item>, owners: seq<Option<string>>, p: Packed, key: string)
    requires Lawful(m) && LeavesOk(m, kinds, members) && LeavesOk(m, kinds, p.rest) && AllReadable(structs, p.extra)
    requires PackedBy(m, structs, members, owners, p) && Packable(m, kinds, structs, members, owners)
    ensures AgreeAt(PackedStore(m, kinds, structs, p), LeafStore(m, kinds, members), key)
  {
    if i: nat :| i < |members| && members[i].key == key && owners[i].Some? {
      var s := owners[i].value;
      forall j | 0 <= j < |members| && members[j].key == key ensures owners[j] == Some(s) { SameOwner(structs, members, owners, i, j); }
      GroupStore(m, kinds, members, owners, s, key);
      InsideStruct(m, kinds, structs, members, owners, p, s, i);
      NotInRest(m, kinds, members, owners, key, s);
    } else {
      RestStore(m, kinds, members, owners, key);
      OutsideStructs(m, kinds, structs, members, owners, p, key);
    }
  }

  lemma {:induction false} NotInRest(m: Machine, kinds: Kinds, members: seq<Item>, owners: seq<Option<string>>, key: string, s: string)
    requires |owners| == |members| && LeavesOk(m, kinds, Rest(members, owners))
    requires forall i | 0 <= i < |members| && members[i].key == key :: owners[i] == Some(s)
    ensures key !in LeafStore(m, kinds, Rest(members, owners))
  {
    LeafStoreHas(m, kinds, Rest(members, owners), key);
    RestHas(members, owners, key);
  }

  lemma {:induction false} LeafStoreHas(m: Machine, kinds: Kinds, members: seq<Item>, key: string)
    requires LeavesOk(m, kinds, members)
    ensures key in LeafStore(m, kinds, members) <==> HasKey(members, key)
  {
    if members != [] {
      var n := |members| - 1;
      LeafStoreHas(m, kinds, members[..n], key);
      HasKeySnoc(members[..n], members[n], key);
      assert members == members[..n] + [members[n]];
    }
  }

  // ---------------------------------------------------------------- a member that is lost

  lemma ExampleBody(m: Machine, values: Given)
    requires Lawful(m) && "T.A" in values && values["T.A"] == Int(U8, 1)
    ensures Body(m, [Leaf("T.A", U8)], values).Ok? && Complete([Leaf("T.A", U8)], values)
  {
    assert m.meaning(m.double(1)) == Finite(1 as real);
    var slots := [Leaf("T.A", U8)];
    assert slots[1..] == [];
    assert EncodeLeaf(m, U8, Some(values["T.A"])).Ok?;
  }

  /** A layout with the one leaf `T.A`, given `T.A` and `T.B`: packing succeeds and `T.B` is written nowhere. */
  lemma AMemberIsLost(m: Machine)
    requires Lawful(m)
    ensures var structs := map["T" := Verified("n", "e", Spec("T", [Leaf("T.A", U8)]))];
      var members := [Item("T.A", Int(U8, 1)), Item("T.B", Int(U8, 2))];
      exists p :: PackedBy(m, structs, members, [Some("T"), Some("T")], p) && !Carried(structs, p, "T.B")
  {
    var structs := map["T" := Verified("n", "e", Spec("T", [Leaf("T.A", U8)]))];
    var members := [Item("T.A", Int(U8, 1)), Item("T.B", Int(U8, 2))];
    var owners := [Some("T"), Some("T")];
    var group := Group(members, owners, "T");
    ExampleGroup(members, owners);
    ExampleBody(m, group);
    assert OwnerOk(structs, members[0], owners[0]) && OwnerOk(structs, members[1], owners[1]);
    var p := AllPacked(m, structs, members, owners, "T");
    assert structs["T"].spec.slots[0].path != "T.B";
    NotCarried(structs, p, "T", "T.B");
  }

  lemma ExampleGroup(members: seq<Item>, owners: seq<Option<string>>)
    requires members == [Item("T.A", Int(U8, 1)), Item("T.B", Int(U8, 2))] && owners == [Some("T"), Some("T")]
    ensures Group(members, owners, "T") == map["T.A" := Int(U8, 1), "T.B" := Int(U8, 2)] && Rest(members, owners) == []
  {
    assert members[..1] == [members[0]] && owners[..1] == [owners[0]];
    assert Group(members[..1], owners[..1], "T") == map["T.A" := Int(U8, 1)] && Rest(members[..1], owners[..1]) == [];
  }

  /** All members lie in one struct, which is given completely: packing makes one write. */
  lemma AllPacked(m: Machine, structs: map<string, Verified>, members: seq<Item>, owners: seq<Option<string>>, s: string) returns (p: Packed)
    requires OwnersOk(structs, members, owners) && members != [] && Rest(members, owners) == [] && s in structs
    requires forall i | 0 <= i < |owners| :: owners[i] == Some(s)
    requires Complete(structs[s].spec.slots, Group(members, owners, s)) && Body(m, structs[s].spec.slots, Group(members, owners, s)).Ok?
    ensures PackedBy(m, structs, members, owners, p) && p.rest == [] && |p.extra| == 1 && p.extra[0].member == s
  {
    var body := Body(m, structs[s].spec.slots, Group(members, owners, s)).value;
    p := Packed([], [Extra(s, structs[s].node, structs[s].encoding, body)]);
    assert p.extra[0].member == s && owners[0] == Some(s);
    assert HasExtra(p.extra, s) && Owns(owners, s);
  }

  lemma NotCarried(structs: map<string, Verified>, p: Packed, s: string, key: string)
    requires p.rest == [] && |p.extra| == 1 && p.extra[0].member == s && s in structs && !IsLeaf(structs[s].spec.slots, key)
    ensures !Carried(structs, p, key)
  {
  }
}
