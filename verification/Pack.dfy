/** Leaf members that together fill a verified struct become one struct write: `crates/opcua-cmd/src/writer.rs`,
    `pack_structs`. */
module Pack {
  import opened Wrappers
  import opened Values
  import opened Structs

  /** A member to write: its normalized path and the value. */
  datatype Item = Item(key: string, value: PlcValue)

  /** A struct whose layout the session has verified. */
  datatype Verified = Verified(node: string, encoding: string, spec: Spec)

  datatype Extra = Extra(member: string, node: string, encoding: string, body: seq<Byte>)

  datatype Packed = Packed(rest: seq<Item>, extra: seq<Extra>)

  /** `key` names something inside struct `s`. */
  predicate Under(key: string, s: string) {
    |s| < |key| && key[..|s|] == s && key[|s|] == '.'
  }

  predicate IsLeaf(slots: seq<Slot>, path: string) {
    exists k :: 0 <= k < |slots| && slots[k].Leaf? && slots[k].path == path
  }

  /** `owners[i]` is the struct that member `i` was put into; with several candidates any one, but the same one for the same
      key. */
  predicate OwnersOk(structs: map<string, Verified>, members: seq<Item>, owners: seq<Option<string>>) {
    && |owners| == |members|
    && (forall i | 0 <= i < |members| :: OwnerOk(structs, members[i], owners[i]))
    && forall i, j | 0 <= i < j < |members| && members[i].key == members[j].key :: owners[i] == owners[j]
  }

  /** The first struct above `key` in the order in which the map of structs is visited. */
  function FirstAbove(order: seq<string>, key: string): (o: Option<string>)
    ensures o.Some? ==> o.value in order && Under(key, o.value)
    ensures o.None? ==> forall s | s in order :: !Under(key, s)
  {
    if order == [] then None else if Under(key, order[0]) then Some(order[0]) else FirstAbove(order[1..], key)
  }

  predicate OwnersBy(order: seq<string>, members: seq<Item>, owners: seq<Option<string>>) {
    |owners| == |members| && forall i | 0 <= i < |members| :: owners[i] == FirstAbove(order, members[i].key)
  }

  lemma OwnersByOk(structs: map<string, Verified>, order: seq<string>, members: seq<Item>, owners: seq<Option<string>>)
    requires OwnersBy(order, members, owners) && forall s :: s in order <==> s in structs
    ensures OwnersOk(structs, members, owners)
  {
    forall i | 0 <= i < |members| ensures OwnerOk(structs, members[i], owners[i]) {
      assert owners[i] == FirstAbove(order, members[i].key);
    }
  }

  predicate HasKey(items: seq<Item>, key: string) {
    exists i :: 0 <= i < |items| && items[i].key == key
  }

  lemma HasKeySnoc(front: seq<Item>, last: Item, key: string)
    ensures HasKey(front + [last], key) <==> HasKey(front, key) || last.key == key
    ensures front + [] == front
  {
    if last.key == key { assert (front + [last])[|front|].key == key; }
    if HasKey(front, key) {
      var i :| 0 <= i < |front| && front[i].key == key;
      assert (front + [last])[i].key == key;
    }
  }

  /** The members put into no struct, in order. */
  function Rest(members: seq<Item>, owners: seq<Option<string>>): seq<Item>
    requires |owners| == |members|
  {
    if members == [] then []
    else
      var n := |members| - 1;
      Rest(members[..n], owners[..n]) + if owners[n].None? then [members[n]] else []
  }

  /** The values put into struct `s`; the last one given for a key wins. */
  function Group(members: seq<Item>, owners: seq<Option<string>>, s: string): Given
    requires |owners| == |members|
  {
    if members == [] then map[]
    else
      var n := |members| - 1;
      var before := Group(members[..n], owners[..n], s);
      if owners[n] == Some(s) then before[members[n].key := members[n].value] else before
  }

  predicate Complete(slots: seq<Slot>, values: Given) {
    forall k | 0 <= k < |slots| && slots[k].Leaf? :: slots[k].path in values
  }

  predicate ExtraOk(m: Machine, structs: map<string, Verified>, values: Given, e: Extra) {
    && e.member in structs && e.node == structs[e.member].node && e.encoding == structs[e.member].encoding
    && Complete(structs[e.member].spec.slots, values)
    && Body(m, structs[e.member].spec.slots, values) == Ok(e.body)
  }

  /** What `pack_structs` returns for this choice of owners: one write for each struct that got a member. */
  ghost predicate PackedBy(m: Machine, structs: map<string, Verified>, members: seq<Item>, owners: seq<Option<string>>, p: Packed) {
    && OwnersOk(structs, members, owners)
    && p.rest == Rest(members, owners) && p.extra != []
    && (forall i | 0 <= i < |p.extra| :: ExtraOk(m, structs, Group(members, owners, p.extra[i].member), p.extra[i]))
    && (forall i, j | 0 <= i < j < |p.extra| :: p.extra[i].member != p.extra[j].member)
    && (forall i | 0 <= i < |owners| && owners[i].Some? :: HasExtra(p.extra, owners[i].value))
    && (forall i | 0 <= i < |p.extra| :: Owns(owners, p.extra[i].member))
  }

  predicate Owns(owners: seq<Option<string>>, s: string) {
    exists i :: 0 <= i < |owners| && owners[i] == Some(s)
  }

  predicate HasExtra(extra: seq<Extra>, s: string) {
    exists j :: 0 <= j < |extra| && extra[j].member == s
  }

  /** No member lies in a struct, or one of the structs is not given completely. */
  ghost predicate NothingToPack(structs: map<string, Verified>, members: seq<Item>, owners: seq<Option<string>>) {
    && OwnersOk(structs, members, owners)
    && ((forall s :: !Owns(owners, s)) || exists s :: Owns(owners, s) && s in structs && !Complete(structs[s].spec.slots, Group(members, owners, s)))
  }

  ghost predicate PackFails(m: Machine, structs: map<string, Verified>, members: seq<Item>, owners: seq<Option<string>>, e: EncodeError) {
    && OwnersOk(structs, members, owners)
    && exists s :: Owns(owners, s) && s in structs && Body(m, structs[s].spec.slots, Group(members, owners, s)) == Err(e)
  }

  /** The groups as a map: one for every struct that got a member. */
  ghost predicate GroupsOk(members: seq<Item>, owners: seq<Option<string>>, groups: map<string, Given>) {
    && |owners| == |members|
    && (forall s :: s in groups <==> Owns(owners, s))
    && (forall s | s in groups :: groups[s] == Group(members, owners, s))
  }

  lemma {:induction false} NoGroup(members: seq<Item>, owners: seq<Option<string>>, s: string)
    requires |owners| == |members| && !Owns(owners, s)
    ensures Group(members, owners, s) == map[]
  {
    if members != [] { NoGroup(members[..|members| - 1], owners[..|owners| - 1], s); }
  }

  lemma OwnsSnoc(owners: seq<Option<string>>, o: Option<string>, s: string)
    ensures Owns(owners + [o], s) <==> Owns(owners, s) || o == Some(s)
  {
    if o == Some(s) { assert (owners + [o])[|owners|] == o; }
    if Owns(owners, s) {
      var i :| 0 <= i < |owners| && owners[i] == Some(s);
      assert (owners + [o])[i] == Some(s);
    }
  }

  lemma GroupSnoc(members: seq<Item>, owners: seq<Option<string>>, c: Item, o: Option<string>, s: string)
    requires |owners| == |members|
    ensures Group(members + [c], owners + [o], s)
         == if o == Some(s) then Group(members, owners, s)[c.key := c.value] else Group(members, owners, s)
  {
    assert (members + [c])[..|members|] == members && (owners + [o])[..|members|] == owners;
  }

  lemma GroupsGrow(members: seq<Item>, owners: seq<Option<string>>, groups: map<string, Given>, c: Item, s: string)
    requires GroupsOk(members, owners, groups)
    ensures GroupsOk(members + [c], owners + [Some(s)], groups[s := (if s in groups then groups[s] else map[])[c.key := c.value]])
  {
    if s !in groups { NoGroup(members, owners, s); }
    forall t ensures Owns(owners + [Some(s)], t) <==> Owns(owners, t) || t == s { OwnsSnoc(owners, Some(s), t); }
    forall t ensures Group(members + [c], owners + [Some(s)], t)
      == if t == s then Group(members, owners, s)[c.key := c.value] else Group(members, owners, t)
    {
      GroupSnoc(members, owners, c, Some(s), t);
    }
  }

  lemma GroupsStay(members: seq<Item>, owners: seq<Option<string>>, groups: map<string, Given>, c: Item)
    requires GroupsOk(members, owners, groups)
    ensures GroupsOk(members + [c], owners + [None], groups)
  {
    forall t ensures Owns(owners + [None], t) <==> Owns(owners, t) { OwnsSnoc(owners, None, t); }
    forall t ensures Group(members + [c], owners + [None], t) == Group(members, owners, t) {
      GroupSnoc(members, owners, c, None, t);
    }
  }

  lemma RestSnoc(members: seq<Item>, owners: seq<Option<string>>, c: Item, o: Option<string>)
    requires |owners| == |members|
    ensures Rest(members + [c], owners + [o]) == Rest(members, owners) + if o.None? then [c] else []
  {
    assert (members + [c])[..|members|] == members && (owners + [o])[..|members|] == owners;
  }

  predicate OwnerOk(structs: map<string, Verified>, c: Item, o: Option<string>) {
    match o
    case Some(s) => s in structs && Under(c.key, s)
    case None => forall s | s in structs :: !Under(c.key, s)
  }

  lemma Distributed(order: seq<string>, members: seq<Item>, owners: seq<Option<string>>, groups: map<string, Given>, c: Item, o: Option<string>)
    requires OwnersBy(order, members, owners) && GroupsOk(members, owners, groups) && o == FirstAbove(order, c.key)
    ensures OwnersBy(order, members + [c], owners + [o])
    ensures Rest(members + [c], owners + [o]) == Rest(members, owners) + if o.None? then [c] else []
    ensures o.Some? ==> GroupsOk(members + [c], owners + [o], groups[o.value := (if o.value in groups then groups[o.value] else map[])[c.key := c.value]])
    ensures o.None? ==> GroupsOk(members + [c], owners + [o], groups)
  {
    RestSnoc(members, owners, c, o);
    if o.Some? { GroupsGrow(members, owners, groups, c, o.value); } else { GroupsStay(members, owners, groups, c); }
  }

  /** The keys in the order in which this call visits the hash map: any order, but the same for all members. */
  method VisitOrder(structs: map<string, Verified>) returns (order: seq<string>)
    ensures forall s :: s in order <==> s in structs
  {
    order := [];
    var todo := structs.Keys;
    while todo != {}
      invariant todo <= structs.Keys && forall s :: s in order <==> s in structs && s !in todo
      decreases todo
    {
      var s :| s in todo;
      order := order + [s];
      todo := todo - {s};
    }
  }

  /** Some struct above the member; when there are several, the one visited first. */
  method OwnerFor(order: seq<string>, c: Item) returns (o: Option<string>)
    ensures o == FirstAbove(order, c.key)
  {
    for i := 0 to |order|
      invariant FirstAbove(order, c.key) == FirstAbove(order[i..], c.key)
    {
      assert order[i..][0] == order[i] && order[i..][1..] == order[i + 1..];
      if Under(c.key, order[i]) { return Some(order[i]); }
    }
    return None;
  }

  /** Each member is in the group of its owner or in the rest. */
  ghost predicate Distribution(structs: map<string, Verified>, members: seq<Item>, owners: seq<Option<string>>, rest: seq<Item>, groups: map<string, Given>) {
    OwnersOk(structs, members, owners) && rest == Rest(members, owners) && GroupsOk(members, owners, groups)
  }

  /** The first loop: each member into the group of a struct above it, or into the rest. */
  method Distribute(structs: map<string, Verified>, members: seq<Item>)
    returns (r: (seq<Item>, map<string, Given>), ghost owners: seq<Option<string>>)
    ensures Distribution(structs, members, owners, r.0, r.1)
    ensures exists os :: Distribution(structs, members, os, r.0, r.1)
  {
    owners := [];
    var rest: seq<Item> := [];
    var groups: map<string, Given> := map[];
    var order := VisitOrder(structs);
    for i := 0 to |members|
      invariant OwnersBy(order, members[..i], owners)
      invariant rest == Rest(members[..i], owners) && GroupsOk(members[..i], owners, groups)
    {
      assert members[..i + 1] == members[..i] + [members[i]];
      var o := OwnerFor(order, members[i]);
      Distributed(order, members[..i], owners, groups, members[i], o);
      match o {
        case Some(s) => groups := groups[s := (if s in groups then groups[s] else map[])[members[i].key := members[i].value]];
        case None => rest := rest + [members[i]];
      }
      owners := owners + [o];
    }
    assert members[..|members|] == members;
    OwnersByOk(structs, order, members, owners);
    assert Distribution(structs, members, owners, rest, groups);
    return (rest, groups), owners;
  }

  /** The writes so far cover the groups not in `todo`. */
  ghost predicate Covered(m: Machine, structs: map<string, Verified>, groups: map<string, Given>, extra: seq<Extra>, todo: set<string>) {
    && (forall i | 0 <= i < |extra| :: extra[i].member in groups && extra[i].member !in todo && ExtraOk(m, structs, groups[extra[i].member], extra[i]))
    && (forall i, j | 0 <= i < j < |extra| :: extra[i].member != extra[j].member)
    && (forall s | s in groups && s !in todo :: HasExtra(extra, s))
  }

  lemma CoverOne(m: Machine, structs: map<string, Verified>, groups: map<string, Given>, extra: seq<Extra>, todo: set<string>, e: Extra)
    requires Covered(m, structs, groups, extra, todo) && e.member in todo && e.member in groups && ExtraOk(m, structs, groups[e.member], e)
    ensures Covered(m, structs, groups, extra + [e], todo - {e.member})
  {
    forall s | s in groups && s !in todo - {e.member} ensures HasExtra(extra + [e], s) {
      if s == e.member {
        assert (extra + [e])[|extra|].member == s;
      } else {
        var j :| 0 <= j < |extra| && extra[j].member == s;
        assert (extra + [e])[j].member == s;
      }
    }
  }

  datatype Outcome = All(extra: seq<Extra>) | Missing(member: string) | Failed(member: string, error: EncodeError)

  /** The second loop: one write for each group, when every leaf of its struct is given. */
  method EncodeGroups(m: Machine, structs: map<string, Verified>, groups: map<string, Given>) returns (r: Outcome)
    requires forall s | s in groups :: s in structs
    ensures r.All? ==> Covered(m, structs, groups, r.extra, {})
    ensures r.Missing? ==> r.member in groups && !Complete(structs[r.member].spec.slots, groups[r.member])
    ensures r.Failed? ==> r.member in groups && Body(m, structs[r.member].spec.slots, groups[r.member]) == Err(r.error)
  {
    var todo := groups.Keys;
    var extra: seq<Extra> := [];
    while todo != {}
      invariant todo <= groups.Keys && Covered(m, structs, groups, extra, todo)
      decreases todo
    {
      var s :| s in todo;
      var v, values := structs[s], groups[s];
      if k :| 0 <= k < |v.spec.slots| && v.spec.slots[k].Leaf? && v.spec.slots[k].path !in values { return Missing(s); }
      var body := Encode(m, v.spec, values);
      if body.Err? { return Failed(s, body.error); }
      var e := Extra(s, v.node, v.encoding, body.value);
      CoverOne(m, structs, groups, extra, todo, e);
      extra := extra + [e];
      todo := todo - {s};
    }
    return All(extra);
  }

  lemma OwnersInStructs(structs: map<string, Verified>, members: seq<Item>, owners: seq<Option<string>>, s: string)
    requires OwnersOk(structs, members, owners) && Owns(owners, s)
    ensures s in structs
  {
    var i :| 0 <= i < |owners| && owners[i] == Some(s);
    assert OwnerOk(structs, members[i], owners[i]);
  }

  lemma Assemble(m: Machine, structs: map<string, Verified>, members: seq<Item>, owners: seq<Option<string>>, groups: map<string, Given>, p: Packed)
    requires OwnersOk(structs, members, owners) && GroupsOk(members, owners, groups) && groups != map[]
    requires Covered(m, structs, groups, p.extra, {}) && p.rest == Rest(members, owners)
    ensures PackedBy(m, structs, members, owners, p)
  {
    forall i | 0 <= i < |owners| && owners[i].Some? ensures HasExtra(p.extra, owners[i].value) {
      assert Owns(owners, owners[i].value);
    }
    var s :| s in groups;
    assert HasExtra(p.extra, s);
    forall i | 0 <= i < |p.extra|
      ensures ExtraOk(m, structs, Group(members, owners, p.extra[i].member), p.extra[i]) && Owns(owners, p.extra[i].member)
    {
      assert p.extra[i].member in groups;
    }
  }

  /** `pack_structs` */
  method PackStructs(m: Machine, structs: map<string, Verified>, members: seq<Item>)
    returns (r: Result<Option<Packed>, EncodeError>, ghost owners: seq<Option<string>>)
    ensures r.Ok? && r.value.Some? ==> PackedBy(m, structs, members, owners, r.value.value)
    ensures r.Ok? && r.value.Some? ==> exists os :: PackedBy(m, structs, members, os, r.value.value)
    ensures r == Ok(None) ==> structs == map[] || NothingToPack(structs, members, owners)
    ensures r.Err? ==> PackFails(m, structs, members, owners, r.error)
  {
    if structs == map[] { return Ok(None), []; }
    var found;
    found, owners := Distribute(structs, members);
    var (rest, groups) := found;
    if groups == map[] { return Ok(None), owners; }
    forall s | s in groups ensures s in structs { OwnersInStructs(structs, members, owners, s); }
    var done := EncodeGroups(m, structs, groups);
    match done {
      case Missing(s) => return Ok(None), owners;
      case Failed(s, e) => return Err(e), owners;
      case All(extra) =>
        Assemble(m, structs, members, owners, groups, Packed(rest, extra));
        return Ok(Some(Packed(rest, extra))), owners;
    }
  }
}
