/** The ring of laser measurements: written by `apps/gr-console/src/demo.rs`, read by `apps/gr-console/src/laser.rs`. */
module LaserRing {

  const RING := 50

  datatype Entry = Entry(number: nat, source: nat, code: nat)

  /** `ordered_entries`: newest first; `head` is the next place to write, `count` how many are valid. */
  function OrderedEntries<E>(entries: seq<E>, head: int, count: int): (r: seq<E>)
    ensures |r| == (var n := if |entries| <= RING then |entries| else RING; if count <= 0 then 0 else if count <= n then count else n)
  {
    var n := if |entries| <= RING then |entries| else RING;
    if n == 0 then []
    else
      var h := head % n;
      var c := if count <= 0 then 0 else if count <= n then count else n;
      seq(c, i requires 0 <= i < c => entries[(h + n - (i + 1)) % n])
  }

  function Newest<E>(history: seq<E>): (r: seq<E>)
    ensures |r| == if |history| <= RING then |history| else RING
    ensures forall i | 0 <= i < |r| :: r[i] == history[|history| - 1 - i]
  {
    var c := if |history| <= RING then |history| else RING;
    seq(c, i requires 0 <= i < c => history[|history| - 1 - i])
  }

  /** The place written `i + 1` entries before `head`. */
  function Slot(head: nat, i: nat): (k: nat)
    requires head < RING && i < RING
    ensures k < RING
  {
    if head > i then head - i - 1 else head + RING - i - 1
  }

  predicate Holds(entries: seq<Entry>, head: nat, count: nat, history: seq<Entry>) {
    && |entries| == RING && head < RING
    && count == (if |history| <= RING then |history| else RING)
    && forall i | 0 <= i < count :: entries[Slot(head, i)] == history[|history| - 1 - i]
  }

  lemma ReadsBack(entries: seq<Entry>, head: nat, count: nat, history: seq<Entry>)
    requires Holds(entries, head, count, history)
    ensures OrderedEntries(entries, head, count) == Newest(history)
  {
    var r := OrderedEntries(entries, head, count);
    assert |r| == count == |Newest(history)|;
    forall i | 0 <= i < count ensures r[i] == Newest(history)[i] {
      assert (head % RING + RING - (i + 1)) % RING == Slot(head, i);
      assert r[i] == entries[(head % RING + RING - (i + 1)) % RING];
    }
  }

  lemma Written(entries: seq<Entry>, head: nat, count: nat, history: seq<Entry>, e: Entry)
    requires Holds(entries, head, count, history)
    ensures Holds(entries[head := e], (head + 1) % RING, if count + 1 <= RING then count + 1 else RING, history + [e])
  {
    var entries', head', history' := entries[head := e], (head + 1) % RING, history + [e];
    forall i: nat | i < (if count + 1 <= RING then count + 1 else RING) ensures entries'[Slot(head', i)] == history'[|history'| - 1 - i] {
      if i > 0 {
        assert Slot(head', i) == Slot(head, i - 1) != head;
        assert entries[Slot(head, i - 1)] == history[|history| - 1 - (i - 1)];
      }
    }
  }

  class LaserDiag {
    const slots: array<Entry>
    var head: nat
    var count: nat
    var total: nat
    ghost var history: seq<Entry>

    /** The valid slots hold the end of what was written since the last reset, backwards from `head`. */
    ghost predicate Valid()
      reads this, slots
    {
      Holds(slots[..], head, count, history)
    }

    constructor ()
      ensures Valid() && history == [] && fresh(slots) && slots.Length == 50 && head == 0 && count == 0 && total == 0
    {
      slots := new Entry[RING](_ => Entry(0, 0, 0));
      head, count, total, history := 0, 0, 0, [];
    }

    /** `push_laser` */
    method Push(source: nat, code: nat) returns (e: Entry)
      requires Valid()
      modifies this, slots
      ensures Valid() && history == old(history) + [e] && e == Entry(old(total) + 1, source, code) && total == old(total) + 1
      ensures slots[..] == old(slots[..])[old(head) := e] && head == (old(head) + 1) % 50
    {
      total := total + 1;
      e := Entry(total, source, code);
      Written(slots[..], head, count, history, e);
      slots[head] := e;
      head := (head + 1) % RING;
      count := if count + 1 <= RING then count + 1 else RING;
      history := history + [e];
    }

    /** The diagnostics are reset; the slots keep their old contents. */
    method Reset()
      requires Valid()
      modifies this
      ensures Valid() && history == [] && head == 0 && count == 0 && total == old(total)
    {
      head, count, history := 0, 0, [];
    }

    /** What the reader shows: the last entries since the reset, fifty at most, the newest first. */
    method Show() returns (r: seq<Entry>)
      requires Valid()
      ensures r == Newest(history)
      ensures |r| == (if |history| <= 50 then |history| else 50) && forall i | 0 <= i < |r| :: r[i] == history[|history| - 1 - i]
    {
      ReadsBack(slots[..], head, count, history);
      r := OrderedEntries(slots[..], head, count);
    }
  }
}
