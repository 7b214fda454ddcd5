/** The two header counters: `crates/opcua-cmd/src/writer.rs`, `Counters`. */
module Counters {

  const MAX_CMD_ID := 255
  const MAX_SEQ := 65535

  /** Counts 1..max and starts again; 0 only ever is the seed. */
  function Next(c: nat, max: nat): nat {
    if c >= max then 1 else c + 1
  }

  /** The value after `n` calls. */
  function After(c: nat, max: nat, n: nat): nat {
    if n == 0 then c else Next(After(c, max, n - 1), max)
  }

  class HeaderCounters {
    var cmdId: nat
    var seqNo: nat

    predicate Valid()
      reads this
    {
      cmdId <= MAX_CMD_ID && seqNo <= MAX_SEQ
    }

    /** `with` */
    constructor (cmdId: nat, seqNo: nat)
      requires cmdId <= MAX_CMD_ID && seqNo <= MAX_SEQ
      ensures Valid() && this.cmdId == cmdId && this.seqNo == seqNo
    {
      this.cmdId, this.seqNo := cmdId, seqNo;
    }

    method NextCmdId() returns (id: nat)
      requires Valid()
      modifies this`cmdId
      ensures Valid() && id == cmdId == Next(old(cmdId), MAX_CMD_ID) && 1 <= id <= MAX_CMD_ID
    {
      cmdId := if cmdId == MAX_CMD_ID then 1 else cmdId + 1;
      id := cmdId;
    }

    method NextSeq() returns (s: nat)
      requires Valid()
      modifies this`seqNo
      ensures Valid() && s == seqNo == Next(old(seqNo), MAX_SEQ) && 1 <= s <= MAX_SEQ
    {
      seqNo := if seqNo == MAX_SEQ then 1 else seqNo + 1;
      s := seqNo;
    }
  }

  /** The numbers of the `n`-th header after the seed. */
  function PairAfter(cmdId: nat, seqNo: nat, n: nat): (nat, nat) {
    (After(cmdId, MAX_CMD_ID, n), After(seqNo, MAX_SEQ, n))
  }

  lemma {:induction false} CmdIdAfter(c: nat, n: nat)
    requires c <= MAX_CMD_ID && n >= 1
    ensures After(c, MAX_CMD_ID, n) == (n + c - 1) % 255 + 1
  {
    if n > 1 { CmdIdAfter(c, n - 1); }
  }

  lemma {:induction false} SeqAfter(c: nat, n: nat)
    requires c <= MAX_SEQ && n >= 1
    ensures After(c, MAX_SEQ, n) == (n + c - 1) % 65535 + 1
  {
    if n > 1 { SeqAfter(c, n - 1); }
  }

  lemma SameSeq(a: nat, b: nat)
    requires a <= b
    ensures a % 65535 == b % 65535 <==> (b - a) % 65535 == 0
  {
  }

  /** 65535 is a multiple of 255. */
  lemma SameCmdId(a: nat, d: nat, k: nat)
    requires d == 65535 * k
    ensures (a + d) % 255 == a % 255
  {
    Rounds(a, 257 * k);
  }

  lemma {:induction false} Rounds(a: nat, n: nat)
    ensures (a + 255 * n) % 255 == a % 255
  {
    if n > 0 { Rounds(a, n - 1); }
  }

  lemma SeqRepeats(seqNo: nat, i: nat, j: nat)
    requires seqNo <= MAX_SEQ && 1 <= i <= j
    ensures After(seqNo, MAX_SEQ, i) == After(seqNo, MAX_SEQ, j) <==> (j - i) % MAX_SEQ == 0
  {
    SeqAfter(seqNo, i);
    SeqAfter(seqNo, j);
    SameSeq(i + seqNo - 1, j + seqNo - 1);
  }

  lemma CmdIdRepeats(cmdId: nat, i: nat, j: nat)
    requires cmdId <= MAX_CMD_ID && 1 <= i <= j && (j - i) % MAX_SEQ == 0
    ensures After(cmdId, MAX_CMD_ID, i) == After(cmdId, MAX_CMD_ID, j)
  {
    CmdIdAfter(cmdId, i);
    CmdIdAfter(cmdId, j);
    SameCmdId(i + cmdId - 1, j - i, (j - i) / MAX_SEQ);
    assert j + cmdId - 1 == (i + cmdId - 1) + (j - i);
  }

  /** No header carries a zero, and a pair comes back after 65535 headers, not before. */
  lemma PairsRepeat(cmdId: nat, seqNo: nat, i: nat, j: nat)
    requires cmdId <= MAX_CMD_ID && seqNo <= MAX_SEQ && 1 <= i <= j
    ensures PairAfter(cmdId, seqNo, i).0 >= 1 && PairAfter(cmdId, seqNo, i).1 >= 1
    ensures PairAfter(cmdId, seqNo, i) == PairAfter(cmdId, seqNo, j) <==> (j - i) % MAX_SEQ == 0
  {
    SeqRepeats(seqNo, i, j);
    if (j - i) % MAX_SEQ == 0 { CmdIdRepeats(cmdId, i, j); }
  }
}
