/** Finding member paths in a resolved node map: `crates/opcua-cmd/src/nodemap.rs`. */
module NodeLookup {
  import opened Wrappers
  import opened Text
  import opened Values

  /** `order` lists the keys in map order, `broken` those whose node id does not parse, `kinds` what is known of the types. */
  datatype Nodes = Nodes(order: seq<string>, broken: set<string>, kinds: map<string, Kind>)

  datatype LookupError = NodeMissing(key: string) | BadNodeId(key: string)

  /** `lookup`, for a normalized path. */
  function Lookup(nodes: Nodes, key: string): Result<Kind, LookupError> {
    if key !in nodes.order then Err(NodeMissing(key))
    else if key in nodes.broken then Err(BadNodeId(key))
    else Ok(if key in nodes.kinds then nodes.kinds[key] else Unknown)
  }

  predicate StartsWith(s: string, prefix: string) {
    |prefix| <= |s| && s[..|prefix|] == prefix
  }

  function PathsWithPrefix(order: seq<string>, prefix: string): (r: seq<string>)
    ensures forall k :: k in r <==> k in order && StartsWith(k, prefix)
  {
    if order == [] then []
    else (if StartsWith(order[0], prefix) then [order[0]] else []) + PathsWithPrefix(order[1..], prefix)
  }

  /** The index `i` when `k` is `name[i]`. */
  function ElementIndex(k: string, name: string): Option<nat> {
    if StartsWith(k, name) && |k| >= |name| + 2 && k[|name|] == '[' && k[|k| - 1] == ']'
    then ParseU32(k[|name| + 1..|k| - 1])
    else None
  }

  predicate Before(a: (nat, string), b: (nat, string)) {
    a.0 < b.0 || (a.0 == b.0 && Leq(a.1, b.1))
  }

  /** Keeps the list in ascending order of the index; equal indices are ordered by the key. */
  function Insert(e: (nat, string), es: seq<(nat, string)>): (r: seq<(nat, string)>)
    ensures forall x :: x in r <==> x == e || x in es
  {
    if es == [] then [e]
    else if Before(e, es[0]) then [e] + es
    else [es[0]] + Insert(e, es[1..])
  }

  function Elements(order: seq<string>, name: string): (r: seq<(nat, string)>)
    ensures forall e :: e in r <==> e.1 in order && ElementIndex(e.1, name) == Some(e.0)
  {
    if order == [] then []
    else
      var more := Elements(order[1..], name);
      match ElementIndex(order[0], name)
      case None => more
      case Some(i) => Insert((i, order[0]), more)
  }

  function Keys(es: seq<(nat, string)>): (r: seq<string>)
    ensures |r| == |es| && forall i | 0 <= i < |es| :: r[i] == es[i].1
  {
    seq(|es|, i requires 0 <= i < |es| => es[i].1)
  }

  /** `array_elements` */
  function ArrayElements(order: seq<string>, name: string): seq<string> {
    Keys(Elements(order, name))
  }

  predicate Ascending(es: seq<(nat, string)>) {
    forall i, j | 0 <= i < j < |es| :: Before(es[i], es[j])
  }

  lemma BeforeTransitive(a: (nat, string), b: (nat, string), c: (nat, string))
    requires Before(a, b) && Before(b, c)
    ensures Before(a, c)
  {
    if a.0 == b.0 == c.0 { LeqTransitive(a.1, b.1, c.1); }
  }

  lemma {:induction false} InsertAscending(e: (nat, string), es: seq<(nat, string)>)
    requires Ascending(es)
    ensures Ascending(Insert(e, es))
  {
    if es != [] {
      LeqTotal(e.1, es[0].1);
      if Before(e, es[0]) {
        forall j | 0 < j < |es| ensures Before(e, es[j]) { BeforeTransitive(e, es[0], es[j]); }
      } else {
        var rest := Insert(e, es[1..]);
        InsertAscending(e, es[1..]);
        forall j | 0 <= j < |rest| ensures Before(es[0], rest[j]) {
          assert rest[j] in rest;
        }
      }
    }
  }

  lemma {:induction false} ElementsAscending(order: seq<string>, name: string)
    ensures Ascending(Elements(order, name))
  {
    if order != [] {
      ElementsAscending(order[1..], name);
      match ElementIndex(order[0], name)
      case None =>
      case Some(i) => InsertAscending((i, order[0]), Elements(order[1..], name));
    }
  }

  /** The elements of an array are exactly the keys `name[i]`, in index order. */
  lemma ElementsInOrder(order: seq<string>, name: string)
    ensures forall k :: k in ArrayElements(order, name) <==> k in order && ElementIndex(k, name).Some?
    ensures var ks := ArrayElements(order, name);
      forall i, j | 0 <= i < j < |ks| :: ElementIndex(ks[i], name).Some? && ElementIndex(ks[j], name).Some?
        && ElementIndex(ks[i], name).value <= ElementIndex(ks[j], name).value
        && (ElementIndex(ks[i], name) == ElementIndex(ks[j], name) ==> Leq(ks[i], ks[j]))
  {
    var es, ks := Elements(order, name), ArrayElements(order, name);
    ElementsAscending(order, name);
    forall i | 0 <= i < |ks| ensures ElementIndex(ks[i], name) == Some(es[i].0) { assert es[i] in es; }
    forall k ensures k in ks <==> k in order && ElementIndex(k, name).Some? {
      if k in order && ElementIndex(k, name).Some? {
        assert (ElementIndex(k, name).value, k) in es;
        var i :| 0 <= i < |es| && es[i] == (ElementIndex(k, name).value, k);
        assert ks[i] == k;
      }
      if k in ks {
        var i :| 0 <= i < |ks| && ks[i] == k;
        assert es[i] in es;
      }
    }
  }

  /** A key is element `i` of the array when it is the name, a bracket, a text for `i` and a bracket. */
  lemma ElementExactly(k: string, name: string, i: nat)
    ensures ElementIndex(k, name) == Some(i) <==> exists d :: k == name + "[" + d + "]" && ParseU32(d) == Some(i)
  {
    if ElementIndex(k, name) == Some(i) {
      var d := k[|name| + 1..|k| - 1];
      assert k == name + "[" + d + "]";
    }
    if d :| k == name + "[" + d + "]" && ParseU32(d) == Some(i) {
      assert k[..|name|] == name && k[|name| + 1..|k| - 1] == d;
    }
  }

  /** The keys with a prefix are those that go on from it. */
  lemma PrefixExactly(order: seq<string>, prefix: string, k: string)
    ensures k in PathsWithPrefix(order, prefix) <==> k in order && exists rest :: k == prefix + rest
  {
    if k in PathsWithPrefix(order, prefix) { assert k == prefix + k[|prefix|..]; }
    if rest :| k == prefix + rest { assert k[..|prefix|] == prefix; }
  }

  /** A path that is not in the map is missing, one whose node id does not parse is an error, any other has the kind that is known
      of it, if any. */
  lemma LookupExactly(nodes: Nodes, key: string)
    ensures Lookup(nodes, key) == Err(NodeMissing(key)) <==> key !in nodes.order
    ensures Lookup(nodes, key) == Err(BadNodeId(key)) <==> key in nodes.order && key in nodes.broken
    ensures forall k :: Lookup(nodes, key) == Ok(k) <==>
      && key in nodes.order && key !in nodes.broken
      && (key in nodes.kinds ==> k == nodes.kinds[key]) && (key !in nodes.kinds ==> k == Unknown)
  {
  }
}
