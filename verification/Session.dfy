/** One TCP session and its place in the hub: `apps/plc-link-server/src/session.rs`. */
module Session {
  import opened Wrappers
  import opened HubSpec
  import opened HubRuns
  import opened LinkHub

  /** The entry of `name` belongs to connection `id`. */
  predicate Holds(h: HubState, name: string, id: nat, tx: nat) {
    name in h.plcs && h.plcs[name].connId == id && h.plcs[name].connected && h.plcs[name].tx == Some(tx)
  }

  predicate NoneIn(cmds: seq<Cmd>, s: CmdState) {
    forall k | 0 <= k < |cmds| :: cmds[k].view.state != s
  }

  lemma NonePicked(cmds: seq<Cmd>)
    ensures NoneIn(Keep(cmds, AllSent), Sent)
  {
    KeepOf(cmds, AllSent);
    forall k | 0 <= k < |Keep(cmds, AllSent)| ensures Keep(cmds, AllSent)[k].view.state != Sent {
      assert Keep(cmds, AllSent)[k] in Keep(cmds, AllSent);
    }
  }

  // ---------------------------------------------------------------- the calls a session makes

  function RenamedTo(name: string): Option<string> {
    Some("renamed to " + name + " by Hello")
  }

  /** The hub after `Driver::attach`, when nothing gets in between: the old PLC is left before the new one is joined. */
  function Joins(cfg: Config, h: HubState, plc: Option<string>, connId: nat, name: string, mode: Mode, framing: Framing, tx: nat, now: nat): HubState {
    if connId != 0 && plc == Some(name) then h
    else
      var left := if connId != 0 && plc.Some? then Detach(cfg, h, plc.value, connId, RenamedTo(name), now).hub else h;
      Attach(left, name, mode, framing, Some(tx), now).hub
  }

  /** The session has just become connection `id` of PLC `name`, whose commands it found as they were. */
  predicate JustJoined(h: HubState, h': HubState, name: string, mode: Mode, tx: nat, id: nat) {
    && Holds(h', name, id, tx) && id == h'.nextConnId == h.nextConnId + 1
    && h'.waiters == h.waiters && h'.nextCmdId == h.nextCmdId
    && h'.plcs[name].cmds == PlcOr(h, name, mode).cmds
  }

  /** The session has left PLC `name`, where it had been connected: what was sent over it failed. */
  predicate JustLeft(h: HubState, h': HubState, name: string, finished: seq<CmdView>, reason: Option<string>, now: nat) {
    && name in h.plcs && name in h'.plcs && !h'.plcs[name].connected && NoneIn(h'.plcs[name].cmds, Sent)
    && finished == EndedAll(Take(h.plcs[name].cmds, AllSent), LinkEnding(reason), now)
  }

  lemma DetachLeaves(cfg: Config, h: HubState, name: string, id: nat, reason: Option<string>, now: nat)
    requires name in h.plcs && h.plcs[name].connId == id && h.plcs[name].connected
    ensures var out := Detach(cfg, h, name, id, reason, now); JustLeft(h, out.hub, name, out.finished, reason, now)
  {
    NonePicked(h.plcs[name].cmds);
  }

  lemma LeftAndJoined(cfg: Config, h: HubState, plc: Option<string>, connId: nat, name: string, mode: Mode, framing: Framing, tx: nat, now: nat)
    requires !(connId != 0 && plc == Some(name))
    ensures var h' := Joins(cfg, h, plc, connId, name, mode, framing, tx, now);
      && JustJoined(h, h', name, mode, tx, h.nextConnId + 1)
      && (connId != 0 && plc.Some? && Holds(h, plc.value, connId, tx) ==>
            JustLeft(h, h', plc.value, Detach(cfg, h, plc.value, connId, RenamedTo(name), now).finished, RenamedTo(name), now))
      && forall n | n in h.plcs && n != name && Some(n) != plc :: n in h'.plcs && h'.plcs[n] == h.plcs[n]
  {
    if connId != 0 && plc.Some? && Holds(h, plc.value, connId, tx) { DetachLeaves(cfg, h, plc.value, connId, RenamedTo(name), now); }
  }

  /** The hub after hearing from a PLC and then taking what is queued for it. */
  function Heard(h: HubState, name: string, now: nat): HubState {
    TakeQueued(Received(h, name, now).hub, name, now).1.hub
  }

  predicate JustHeard(h: HubState, h': HubState, name: string, sends: seq<(nat, Message)>, now: nat) {
    && name in h.plcs && name in h'.plcs && NoneIn(h'.plcs[name].cmds, Queued)
    && h'.plcs[name].cmds == SentPicked(h.plcs[name].cmds, AllQueued, now)
    && sends == Handed(Take(h.plcs[name].cmds, AllQueued))
    && h'.nextConnId == h.nextConnId
    && h'.plcs[name].connId == h.plcs[name].connId && h'.plcs[name].connected == h.plcs[name].connected && h'.plcs[name].tx == h.plcs[name].tx
  }

  lemma HeardAndTaken(h: HubState, name: string, now: nat)
    requires name in h.plcs
    ensures JustHeard(h, Heard(h, name, now), name, TakeQueued(Received(h, name, now).hub, name, now).0, now)
  {
  }

  class Driver {
    const hub: Hub
    const fixed: Option<string>
    const peer: string
    const mode: Mode
    const framing: Framing
    const tx: nat
    var plc: Option<string>
    var connId: nat

    predicate Valid()
      reads this, hub
    {
      hub.Valid() && (connId != 0 ==> plc.Some?) && connId <= hub.nextConnId
    }

    /** The session still is the connection of its PLC. */
    predicate Attached()
      reads this, hub
    {
      connId != 0 && plc.Some? && Holds(hub.State(), plc.value, connId, tx)
    }

    constructor (hub: Hub, fixed: Option<string>, peer: string, mode: Mode, framing: Framing, tx: nat)
      requires hub.Valid()
      ensures Valid() && this.hub == hub && this.fixed == fixed && this.peer == peer && plc == None && connId == 0
    {
      this.hub, this.fixed, this.peer, this.mode, this.framing, this.tx := hub, fixed, peer, mode, framing, tx;
      plc, connId := None, 0;
    }

    /** A session that changes its PLC leaves the old one first, and what was sent over it fails. Attaching to the same
        PLC again does nothing, even when another connection has taken over since. */
    method Attach(name: string, now: nat) returns (finished: seq<CmdView>, outbound: seq<(nat, Outbound)>)
      requires Valid()
      modifies this, hub
      ensures Valid() && connId != 0 && plc == Some(name)
      ensures hub.State() == Joins(hub.cfg, old(hub.State()), old(plc), old(connId), name, mode, framing, tx, now)
      ensures old(connId) != 0 && old(plc) == Some(name)
        ==> hub.State() == old(hub.State()) && connId == old(connId) && finished == [] && outbound == []
      ensures old(connId) == 0 || old(plc) != Some(name) ==>
        JustJoined(old(hub.State()), hub.State(), name, mode, tx, connId) && outbound == Farewell(PlcOr(old(hub.State()), name, mode).tx)
      ensures old(Attached()) && old(plc) != Some(name) ==>
        JustLeft(old(hub.State()), hub.State(), old(plc.value), finished, RenamedTo(name), now)
      ensures forall n | n in old(hub.plcs) && n != name && Some(n) != old(plc) :: n in hub.plcs && hub.plcs[n] == old(hub.plcs)[n]
    {
      finished, outbound := [], [];
      if connId != 0 && plc == Some(name) { return; }
      LeftAndJoined(hub.cfg, hub.State(), plc, connId, name, mode, framing, tx, now);
      if plc.Some? && connId != 0 {
        finished := hub.Detach(plc.value, connId, Some("renamed to " + name + " by Hello"), now);
      }
      plc := Some(name);
      connId, outbound := hub.Attach(name, mode, framing, Some(tx), now);
    }

    /** A Hello names the PLC unless the session was opened for one. */
    function NameFor(hello: Option<string>): string
      reads this
    {
      if fixed.Some? then fixed.value else if hello.Some? then hello.value else peer
    }

    /** A Hello was received: the session takes its PLC and everything queued for it, oldest first. */
    method OnHello(hello: Option<string>, now: nat) returns (sends: seq<(nat, Message)>, finished: seq<CmdView>, outbound: seq<(nat, Outbound)>)
      requires Valid()
      modifies this, hub
      ensures Valid() && connId != 0 && plc == Some(NameFor(hello))
      ensures hub.State() == Heard(Joins(hub.cfg, old(hub.State()), old(plc), old(connId), NameFor(hello), mode, framing, tx, now), NameFor(hello), now)
      ensures NameFor(hello) in hub.plcs ==> NoneIn(hub.plcs[NameFor(hello)].cmds, Queued)
      ensures old(connId) == 0 || old(plc) != Some(NameFor(hello)) ==>
        var cmds := PlcOr(old(hub.State()), NameFor(hello), mode).cmds;
        Attached() && hub.plcs[plc.value].cmds == SentPicked(cmds, AllQueued, now) && sends == Handed(Take(cmds, AllQueued))
    {
      var name := NameFor(hello);
      finished, outbound := Attach(name, now);
      ghost var mid := hub.State();
      hub.Received(name, now);
      sends := hub.TakeQueued(name, now);
      if name in mid.plcs { HeardAndTaken(mid, name, now); }
    }

    /** A message other than a Hello: an unnamed session takes the name of its peer, then the message may answer a command. */
    method OnMessage(m: Message, now: nat) returns (finished: seq<CmdView>, renamed: seq<CmdView>, outbound: seq<(nat, Outbound)>)
      requires Valid()
      modifies this, hub
      ensures Valid() && connId != 0 && plc.Some?
      ensures var mid := if old(connId) == 0 then Joins(hub.cfg, old(hub.State()), old(plc), 0, peer, mode, framing, tx, now) else old(hub.State());
        var out := Reply(hub.cfg, Received(mid, plc.value, now).hub, plc.value, m, None, None, now);
        finished == out.finished && hub.State() == out.hub
      ensures old(connId) != 0 ==> plc == old(plc) && connId == old(connId) && outbound == [] && renamed == []
      ensures old(connId) == 0 ==> plc == Some(peer)
    {
      renamed, outbound := [], [];
      if connId == 0 { renamed, outbound := Attach(peer, now); }
      hub.Received(plc.value, now);
      finished := hub.Reply(plc.value, m, None, None, now);
    }

    /** The connection ended. When it still was the connection of its PLC, nothing remains sent; else nothing changes. */
    method End(reason: Option<string>, now: nat) returns (finished: seq<CmdView>)
      requires Valid()
      modifies hub
      ensures Valid()
      ensures connId != 0 && plc.Some? && old(plc.value in hub.plcs && hub.plcs[plc.value].connId == connId && hub.plcs[plc.value].connected) ==>
        && plc.value in hub.plcs && !hub.plcs[plc.value].connected && NoneIn(hub.plcs[plc.value].cmds, Sent)
        && finished == EndedAll(Take(old(hub.plcs)[plc.value].cmds, AllSent), LinkEnding(reason), now)
      ensures !(connId != 0 && plc.Some? && old(plc.value in hub.plcs && hub.plcs[plc.value].connId == connId && hub.plcs[plc.value].connected))
        ==> hub.State() == old(hub.State()) && finished == []
    {
      finished := [];
      if plc.Some? && connId != 0 {
        if plc.value in hub.plcs { NonePicked(hub.plcs[plc.value].cmds); }
        finished := hub.Detach(plc.value, connId, reason, now);
      }
    }
  }
}
