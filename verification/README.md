# Verification of the gantry robot console

A Dafny model of the parts of this repository where state, protocols and encodings meet, with proofs of what they promise.
`dafny verify dfyconfig.toml` checks everything.

What is modelled, in the system's own terms:

* **Command hub of the PLC link server.** `HubSpec` says what each call does to the hub. `LinkHub` is the hub itself: a class
  with one lock, whose methods carry the loops of the source and are each proved equal to their step. `HubRuns` lets the
  calls, the second critical section that answers waiters, and time interleave freely; `HubInvariant`, `HubSafety` and
  `HubTheorems` prove what holds in every run. `LinkHub.Serve` ties the two together: any schedule of calls on a hub object
  ends where the run of that schedule ends. `HubExactly` says what each call does, in the fields of messages,
  commands and entries alone; `HubCalls` what calls mean to their callers for the rest of a run. `Session` is the connection
  driver that calls the hub; `SessionRuns` proves what its calls achieve when other tasks get in between.
* **Member paths and array indices.** `Path` parses and prints member paths. `NodeMap`, `Rebase` and `RebaseLaws` rewrite the
  0-based array keys of a browsed server to PLC indices. `SimOpcua`, `LayoutNames` and `LayoutRoundTrip` follow the names that
  the simulated server gives to a layout, down to the text it scans, and show that rebasing undoes them.
* **Submitting a robot task over OPC UA.** `Values` and `Structs` hold both ways to write a value: a typed leaf write and a byte
  range of a struct body (sections 5.2.2, 5.2.5 and 5.2.6 of OPC 10000-6). `Pack` gathers leaves into struct writes,
  `PackMeaning` proves that the server ends up with the same store, whether or not structs lie inside each other.
  `Counters`, `NodeLookup`, `Writer` and `WriterTheorems` are the two-phase submission against a server that may do anything with a request.
* **Demo robot.** `DemoSpec` is one tick as a function with a ledger of every task, `Demo` the object that changes in place,
  `DemoExactly` says what each stage does to which tasks, `DemoTheorems` are the conservation results.
* **Work areas on the shared axis.** `Area` and `AreaRuns`.
* **Switching off.** `Shutdown`.
* **Smaller cores.** `ErrorList`, `Render`, `Record`, `LaserRing`.

`Wrappers` and `Text` hold what the others share. Conventions: time is a natural number; strings are sequences of characters;
a map in key order is a list of its entries or a list of its keys; locks make a method one step; whatever a clock, a socket, a
codec or a server decides is a parameter or an arbitrary value. Floating point numbers are bit patterns with a `Machine` that
says what arithmetic does to them; only its exact cases are assumed (`Values.Lawful`), and `Values.SampleIsQuieting` shows a
machine that has them. Positions in `Area` are reals.

Where a promise is false as it stands, the project keeps the code as it is, shows an input that breaks it and proves the exact
condition:

* Rebasing loses an element when an index would leave `u32`: `RebaseLaws.OverflowLosesAnElement` is a map of three that shrinks,
  `RebaseLaws.WalkClash` and `RebaseLaws.RebaseLosesExactly` say when that happens.
* Names come back from the server only when all instances of an array share their bounds: `SimOpcua.UnequalBoundsAreLost`,
  `SimOpcua.ServerNamesRebase`.
* A packed struct drops a given member that is not a leaf of its layout: `PackMeaning.AMemberIsLost`,
  `PackMeaning.CarriedExactly`.
* A queued task with the key of the one that ends vanishes from every list: `DemoTheorems.ADuplicateIsLost`,
  `DemoTheorems.LostExactly`.
* Cancelling a task can break the separation of the robots: `AreaRuns.CancelBreaks`, `AreaRuns.CancelExactly`. So can a task
  given to a robot of unknown position that holds a pair: `AreaRuns.UnknownPositionBreaks`, `AreaRuns.IssueExactly`.
* `drain` returning Ok lasts only once the shutdown has begun: `Shutdown.OkDoesNotLast`, `Shutdown.EmptyForever`.
* The two ways of writing a leaf accept different values: `Values.AcceptedByOne`, `Values.AcceptedByBoth`. A NaN may change its
  bits: `Values.ASignallingNanChanges`, `Values.SameStored`, and on a machine that quiets NaNs `Values.SameUnlessSignalling`.

## Model

| member | source | states |
|---|---|---|
| Path.RenderSegmentLoop | crates/opcua-cmd/src/path.rs:17-24 | the printing loop yields name and bracketed indices |
| Path.ParseIndices | crates/opcua-cmd/src/path.rs:45-62 | the index loop reads every bracket or reports the first fault, as the recursive reading does |
| Path.ParseSegment | crates/opcua-cmd/src/path.rs:34-65 | the imperative parser agrees with the recursive one on every text, errors included |
| Path.ParseRender | crates/opcua-cmd/src/path.rs:68-79 | parsing a printed path gives back its segments |
| Path.RenderInjective | crates/opcua-cmd/src/path.rs:77-79 | different well-formed paths print differently |
| Path.ParsePathWf | crates/opcua-cmd/src/path.rs:34-74 | every parse result is well-formed, whatever the text |
| Path.NormalizeCanonical | crates/opcua-cmd/src/path.rs:82-84 | normalizing is idempotent, and two texts normalize alike exactly when they parse alike |
| Path.CanonicalIffRendered | crates/opcua-cmd/src/path.rs:82-84 | canonical keys are exactly the printed well-formed paths |
| Path.ElementNamesAgree | crates/opcua-cmd/src/path.rs:88-126 | all three names a server may use for an element lead to the same key |
| Path.MemberIsAppended | crates/opcua-cmd/src/path.rs:88-119 | any other member gives the parent's key and one more segment |
| Path.OddNameIsAppended | crates/opcua-cmd/src/path.rs:117-119 | a name that does not parse is appended as it is |
| NodeMap.RebaseIsDeclared | crates/opcua-cmd/src/nodemap.rs:175-220 | rewriting depth by depth, on keys that change meanwhile, equals one reading of the original keys |
| NodeMap.RebaseInjective | crates/opcua-cmd/src/nodemap.rs:175-220 | no two elements get the same key while indices fit |
| NodeMap.RebaseSettles | crates/opcua-cmd/src/nodemap.rs:166-173 | afterwards no array with a positive lower bound holds element 0 |
| NodeMap.SettledWalk | crates/opcua-cmd/src/nodemap.rs:166-173 | a settled map is left as it is |
| Rebase.InstanceKeyIdentifies | crates/opcua-cmd/src/nodemap.rs:183-200 | the text key of an array instance stands for exactly one instance |
| Rebase.ZeroGroups | crates/opcua-cmd/src/nodemap.rs:183-200 | the grouping pass finds exactly the instances that hold index 0 |
| Rebase.RebaseDepth | crates/opcua-cmd/src/nodemap.rs:183-215 | one turn of the depth loop moves every element of these instances and counts them |
| Rebase.RebaseArrayKeys | crates/opcua-cmd/src/nodemap.rs:175-220 | the whole loop returns the rewritten map and the number of moves |
| RebaseLaws.RebaseKeepsElements | crates/opcua-cmd/src/nodemap.rs:175-220 | as many keys as before, and each value sits under the new key of its element |
| RebaseLaws.RebaseIdempotent | crates/opcua-cmd/src/nodemap.rs:171-173 | rebasing the result again changes nothing, for all keys and bounds |
| RebaseLaws.ShiftClash | crates/opcua-cmd/src/nodemap.rs:200-212 | at one depth two keys meet exactly when a moved index lands on one that no longer fits |
| RebaseLaws.WalkClash | crates/opcua-cmd/src/nodemap.rs:175-220 | in the whole rewriting two paths become the same exactly when they clash at one of its depths |
| RebaseLaws.RebaseLosesExactly | crates/opcua-cmd/src/nodemap.rs:175-220 | the rewritten map is as large as before, with every value under its new key, exactly when no two keys clash at any depth; else it is smaller |
| RebaseLaws.OverflowLosesAnElement | crates/opcua-cmd/src/nodemap.rs:200-212 | three elements at the end of `u32` with lower bound 1: the rewritten map has fewer than three |
| SimOpcua.LowIsLow | apps/gr-console/src/sim_opcua.rs:247-250 | the lower bound of an instance is its smallest index |
| SimOpcua.ServerHoldsZero | apps/gr-console/src/sim_opcua.rs:127-184 | in the server's naming every array instance has an element 0 |
| SimOpcua.ServerNamesRebase | apps/gr-console/src/sim_opcua.rs:127-184 | rebasing the server's names restores the layout, at any depth, exactly when instances share bounds |
| SimOpcua.RebasedName | apps/gr-console/src/sim_opcua.rs:127-184 | at every depth an element returns under its offset in its instance plus the smallest index of the whole array |
| SimOpcua.UnequalBoundsAreLost | apps/gr-console/src/sim_opcua.rs:127-184 | `A[2].B[5]` comes back as `A[2].B[1]` when `B` begins at 1 in `A[1]` |
| LayoutNames.ParseI64Exactly | apps/gr-console/src/sim_opcua.rs:247-250 | signed numbers of 64 bits are read back, larger ones refused |
| LayoutNames.NoElementNoBound | apps/gr-console/src/sim_opcua.rs:247-250 | without an element the lower bound is 0 |
| LayoutNames.LowerBoundIsLow | apps/gr-console/src/sim_opcua.rs:247-250 | the text scan for the lower bound finds the smallest index |
| LayoutNames.ServerKeyIsServerPath | apps/gr-console/src/sim_opcua.rs:127-222 | the string code that names nodes produces the 0-based paths |
| LayoutRoundTrip.ArrayBasesFromPaths | crates/opcua-cmd/src/nodemap.rs:125-138 | the loop collects the smallest first index of every array |
| LayoutRoundTrip.ServerRootPath | crates/opcua-cmd/src/nodemap.rs:145-162 | the loops translate a root to 0-based names; a root that does not parse is kept |
| LayoutRoundTrip.RootExactly | crates/opcua-cmd/src/nodemap.rs:145-162 | the first index of an array with a known lower bound is counted from it, 0 at least; all else is kept |
| LayoutRoundTrip.RootMatchesServer | crates/opcua-cmd/src/nodemap.rs:140-162 | the translated root is the prefix the server gives to members below it |
| LayoutRoundTrip.LayoutSurvivesServer | apps/gr-console/src/sim_opcua.rs:77-85 | name a layout as the server does, rebase with the bounds of the layout: every path returns with its value |
| Values.ReadInt | crates/opcua-cmd/src/structs.rs:87-96 | a little-endian two's complement field is read back as the integer written, for all eight kinds |
| Values.AcceptedByBoth | crates/opcua-cmd/src/value.rs:143-180 | which values each way of writing accepts, and where they differ |
| Values.SameStored | crates/opcua-cmd/src/value.rs:107-180 | on any machine a value both accept is stored alike, except exactly a single whose bits change on the way through a double |
| Values.AcceptedByOne | crates/opcua-cmd/src/value.rs:143-180 | 2 in a Bool, 2^40 in a 64-bit leaf, a string in a float leaf: what each way makes of them |
| Values.NansExactly | crates/opcua-cmd/src/value.rs:107-180 | the ranges of bit patterns that are NaNs and signalling NaNs |
| Values.SameUnlessSignalling | crates/opcua-cmd/src/value.rs:107-180 | on a machine that quiets NaNs, the two ways store differently exactly a signalling NaN in a single leaf |
| Values.ASignallingNanChanges | crates/opcua-cmd/src/value.rs:107-180 | `0x7F800001`: the body keeps it, the leaf write makes it `0x7FC00001` |
| Values.MissingIsZero | crates/opcua-cmd/src/structs.rs:69-110 | a leaf that is not given is written as zero of its kind |
| Structs.Encode | crates/opcua-cmd/src/structs.rs:69-110 | the encoder loop yields the bytes of the slots in order, or the first leaf without bytes |
| Structs.BodyLength | crates/opcua-cmd/src/structs.rs:69-110 | the length of a body depends on the layout alone |
| Structs.SlotOffset | crates/opcua-cmd/src/structs.rs:69-110 | every slot lies behind the widths of the slots before it |
| Structs.BodyError | crates/opcua-cmd/src/structs.rs:69-110 | a body exists exactly when all leaves encode; else the first failing leaf is reported |
| Structs.StructWriteIsLeafWrites | crates/opcua-cmd/src/structs.rs:1-12 | a server that takes a body apart holds what the leaf writes in the same order leave |
| Structs.UnpackExactly | crates/opcua-cmd/src/structs.rs:69-110 | a body can be taken apart exactly when it has the bytes of the layout and every declared array length |
| Structs.LeafWritten | crates/opcua-cmd/src/structs.rs:69-110 | the stored value of a leaf is its coerced value |
| Structs.Verify | crates/opcua-cmd/src/structs.rs:135-144 | accepts exactly the encoded body; otherwise names the lengths or the first differing byte |
| Structs.VerifiedLayout | crates/opcua-cmd/src/structs.rs:10-12 | a verified body taken apart by the layout is the leaf values that were read |
| Structs.StructNodeIsParent | crates/opcua-cmd/src/structs.rs:44-120 | the struct node is found exactly when the first direct leaf is named below it by its quoted name |
| Pack.Distribute | crates/opcua-cmd/src/writer.rs:485-497 | each member goes into the group of a struct above it, the same one for the same key, else into the rest, in order |
| Pack.EncodeGroups | crates/opcua-cmd/src/writer.rs:498-511 | one write for each complete group; a missing leaf or an encoding error stops |
| Pack.PackStructs | crates/opcua-cmd/src/writer.rs:480-512 | the result for any order in which structs and groups are visited, the reasons for none, and the errors |
| PackMeaning.NothingAdded | crates/opcua-cmd/src/writer.rs:480-512 | a packed submission carries no member that was not given |
| PackMeaning.CarriedExactly | crates/opcua-cmd/src/writer.rs:480-512 | a given member is carried exactly when no struct is above it or it is a leaf of the layout of the struct it was put into, for nested structs and repeated members too |
| PackMeaning.AMemberIsLost | crates/opcua-cmd/src/writer.rs:480-512 | a concrete packing that writes one given member nowhere |
| PackMeaning.PackedMeansLeafWrites | crates/opcua-cmd/src/writer.rs:480-512 | struct writes and remaining leaf writes leave the store of all leaf writes, for nested structs and repeated members too |
| Counters.HeaderCounters.NextCmdId | crates/opcua-cmd/src/writer.rs:167-170 | 1 to 255, then 1 again |
| Counters.HeaderCounters.NextSeq | crates/opcua-cmd/src/writer.rs:173-176 | 1 to 65535, then 1 again |
| Counters.PairsRepeat | crates/opcua-cmd/src/writer.rs:145-177 | no zero, and a pair comes back exactly after multiples of 65535 headers |
| NodeLookup.LookupExactly | crates/opcua-cmd/src/nodemap.rs:45-51 | missing, broken, or the known kind |
| NodeLookup.PrefixExactly | crates/opcua-cmd/src/nodemap.rs:54-56 | the keys that go on from the prefix |
| NodeLookup.ElementExactly | crates/opcua-cmd/src/nodemap.rs:59-67 | element `i` is the name, a bracket, a text for `i`, a bracket |
| NodeLookup.ElementsInOrder | crates/opcua-cmd/src/nodemap.rs:59-72 | array elements are exactly the keys with an index, ascending, equal indices by key |
| Writer.Normalize | crates/opcua-cmd/src/writer.rs:412-416 | every member gets its normalized path, or the first path that does not normalize is reported |
| Writer.Zeroes | crates/opcua-cmd/src/writer.rs:417-423 | one zero for every `Command.` and `Data` path not given, no more |
| Writer.CmdWriter.WriteChunks | crates/opcua-cmd/src/writer.rs:566-584 | requests carry the writes in order, each as many as the server takes but the last; the first not acknowledged ends it and is reported |
| Writer.CheckAnswer | crates/opcua-cmd/src/writer.rs:572-581 | an answer is an acknowledgement exactly when it has one good status for each write; otherwise the timeout, the transport error or the first bad status is reported |
| Writer.CmdWriter.WriteBatch | crates/opcua-cmd/src/writer.rs:531-563 | without a session, or when a member cannot be written, nothing is sent and that is the error; else struct writes go first and the rest in order |
| Writer.CmdWriter.WriteStructs | crates/opcua-cmd/src/writer.rs:428-445 | exactly when the server refuses one of the structs, struct writes end and everything goes out again as leaves; any other end is the end |
| Writer.CmdWriter.WriteFirst | crates/opcua-cmd/src/writer.rs:426-451 | which attempts phase one makes, in which case, and that it ends as the last of them |
| Writer.CmdWriter.WriteHeader | crates/opcua-cmd/src/writer.rs:453-461 | one group of writes with fresh numbers, and what becomes of its outcome |
| Writer.CmdWriter.WriteTask | crates/opcua-cmd/src/writer.rs:406-462 | the header is sent exactly when phase one ended well, and the call ends as the last thing it did; no number is used up otherwise |
| WriterTheorems.ZeroesExactly | crates/opcua-cmd/src/writer.rs:417-423 | a zero for exactly the paths below `Command.` and the elements of `Data` that the task does not give, once each |
| WriterTheorems.GoodExactly | crates/opcua-cmd/src/writer.rs:576-580 | a status is good when its two highest bits are zero |
| WriterTheorems.HeaderFields | crates/opcua-cmd/src/writer.rs:593-602 | each write of the header puts its own field, coerced, under the literal path of that field, in order; all six when the header is well |
| WriterTheorems.HeaderIsStored | crates/opcua-cmd/src/writer.rs:593-602 | after the header the server holds exactly the six fields, each under its name |
| WriterTheorems.UncertainExactly | crates/opcua-cmd/src/writer.rs:457-461 | `HeaderUncertain` exactly when the last header request was not answered for every node |
| WriterTheorems.SeqIsLast | crates/opcua-cmd/src/writer.rs:593-602 | when SEQ is sent the whole header was sent in order and all earlier requests acknowledged |
| WriterTheorems.HeaderComesLast | crates/opcua-cmd/src/writer.rs:406-462 | a header request means that every member and every zero was acknowledged before |
| WriterTheorems.TaskEndsWell | crates/opcua-cmd/src/writer.rs:406-462 | a submission ends well exactly when paths normalize, what packs encodes, and the groups that count can be made and are acknowledged |
| WriterTheorems.NoEarlyHeader | crates/opcua-cmd/src/writer.rs:406-451 | nothing that phase one writes, as a leaf or inside a struct body, is a header field unless a member is one |
| WriterTheorems.AttemptIsLeafWrites | crates/opcua-cmd/src/writer.rs:426-451 | the acknowledged attempt alone has the effect of leaf writes of all members and zeros, packed or not |
| WriterTheorems.TaskIsStored | crates/opcua-cmd/src/writer.rs:406-451 | whatever the server held and whatever part of a refused attempt it applied, after phase one it holds what it held before with exactly the leaf writes of all members and zeros on top |
| LinkHub.Finish | apps/plc-link-server/src/hub.rs:281-291 | removes the command, stamps its end, keeps the newest of the history within the cap |
| LinkHub.Hub.EnsurePlc | apps/plc-link-server/src/hub.rs:406-416 | the entry exists with the mode; framing only overrides when given |
| LinkHub.Hub.Attach | apps/plc-link-server/src/hub.rs:420-447 | new state, fresh id, and the previous channel is told to disconnect |
| LinkHub.Hub.Detach | apps/plc-link-server/src/hub.rs:450-471 | the loop fails exactly what was sent, or nothing for a stale id |
| LinkHub.Hub.TouchHttp | apps/plc-link-server/src/hub.rs:506-534 | new state; another kind of live connection is replaced |
| LinkHub.Hub.Submit | apps/plc-link-server/src/hub.rs:701-753 | view, state, waiters and outbound message, with both refusals |
| LinkHub.Hub.TakeQueued | apps/plc-link-server/src/hub.rs:756-766 | the loop hands out everything queued in order and marks it sent |
| LinkHub.Hub.CommandSent | apps/plc-link-server/src/hub.rs:768-779 | the one command gets its sequence number |
| LinkHub.Hub.CommandFailed | apps/plc-link-server/src/hub.rs:787-798 | the one command fails with the error and status |
| LinkHub.Hub.PopHttp | apps/plc-link-server/src/hub.rs:801-815 | the oldest queued command with a fresh number; the number advances even when there is none |
| LinkHub.Hub.Reply | apps/plc-link-server/src/hub.rs:833-880 | the first sent command that the reply answers ends as the reply says |
| LinkHub.Hub.Cancel | apps/plc-link-server/src/hub.rs:882-893 | the one command ends cancelled |
| LinkHub.Hub.Tick | apps/plc-link-server/src/hub.rs:903-928 | nested loops expire what is too old and mark silent HTTP links down |
| LinkHub.Hub.Deliver | apps/plc-link-server/src/hub.rs:379-400 | takes the waiters out and sends each its view |
| LinkHub.Serve | apps/plc-link-server/src/hub.rs:294-302 | any schedule of calls on one hub object ends in the state of that run, with its answers |
| HubExactly.ReplyExactly | apps/plc-link-server/src/hub.rs:817-880 | a message ends a command if and only if it is a result, or an Ack that refers to a command or answers one request, and a sent command has the id or the non-zero number; the first such ends with the state, code, reply, status and error that the fields say; otherwise nothing happens |
| HubExactly.TickExactly | apps/plc-link-server/src/hub.rs:903-928 | in every PLC exactly the commands with `now >= created + TTL` leave, in order, Expired with the error; exactly the silent polling links go down; all else stays |
| HubExactly.CancelExactly | apps/plc-link-server/src/hub.rs:882-893 | the command with the id ends Cancelled, alone; an unknown id changes nothing |
| HubExactly.FailExactly | apps/plc-link-server/src/hub.rs:781-798 | the command with the id ends Failed with the text and the status, alone |
| HubExactly.SubmitExactly | apps/plc-link-server/src/hub.rs:699-753 | both refusals, the whole new command, its place, waiter and outbound message, by the fields of the entry |
| HubExactly.TakeExactly | apps/plc-link-server/src/hub.rs:755-766 | the queued commands are handed out in order with their messages and are sent from now on; the others stay |
| HubExactly.PopExactly | apps/plc-link-server/src/hub.rs:800-815 | the oldest queued command gets the next number of 1 to 65535, in view and message; the counter moves in any case |
| HubExactly.SentExactly | apps/plc-link-server/src/hub.rs:768-779 | the first command with the id gets the number and counts as sent |
| HubExactly.AttachExactly | apps/plc-link-server/src/hub.rs:420-447 | every field of the entry of a new connection |
| HubExactly.DetachExactly | apps/plc-link-server/src/hub.rs:450-471 | the live connection leaves: exactly the sent commands fail, in order; any other id changes nothing |
| HubExactly.TouchExactly | apps/plc-link-server/src/hub.rs:506-534 | every field of the entry of a polling PLC, new or known |
| HubExactly.EntryExactly | apps/plc-link-server/src/hub.rs:404-416 | the entry is made or keeps all but its mode and a given framing |
| HubCalls.PollsInOrder | apps/plc-link-server/src/hub.rs:800-815 | polling any number of times hands out the queued commands one by one in the order of submission and leaves the others queued |
| HubCalls.SubmittedForGood | apps/plc-link-server/src/hub.rs:699-753 | an accepted submission has an id nobody had; in every continuation of the run the command belongs to its PLC, waits, is on its way or is over, and its waiter still waits or was answered once |
| HubInvariant.CallIsGood | apps/plc-link-server/src/hub.rs:403-928 | no call loses, duplicates or revives a command, and what it hands out was queued |
| HubSafety.StepKeepsInv | apps/plc-link-server/src/hub.rs:379-928 | every step keeps the joint invariant of queues, records, histories, hand-outs and waiters |
| HubTheorems.EveryCommandIsSomewhere | apps/plc-link-server/src/hub.rs:701-815 | in every run an id is in one queue, or recorded, or was refused |
| HubTheorems.QueuesAndRecords | apps/plc-link-server/src/hub.rs:281-291 | ids increase, nothing is handed out or recorded twice, histories are the end of the record within the cap |
| HubTheorems.CommandsNeverComeBack | apps/plc-link-server/src/hub.rs:701-928 | however a run goes on, a command only moves queued, sent, ended, and keeps its end |
| HubTheorems.EveryWaiterIsAnsweredOnce | apps/plc-link-server/src/hub.rs:379-400 | a waiter still waits for a live or undelivered command, or was answered once with the recorded view |
| HubTheorems.TickLeavesNothingOld | apps/plc-link-server/src/hub.rs:903-928 | after a tick no command is as old as the time to live |
| HubTheorems.StepKeepsLinks | apps/plc-link-server/src/hub.rs:420-534 | connection ids and counters only grow |
| HubTheorems.ConnectionsAreSafe | apps/plc-link-server/src/hub.rs:420-534 | ids are unique; disconnects never exceed connects, strictly fewer while connected |
| HubTheorems.DetachIsPrecise | apps/plc-link-server/src/hub.rs:450-471 | a stale detach changes nothing; an effective one leaves the queued commands, in order |
| Session.Driver.Attach | apps/plc-link-server/src/session.rs:80-91 | without interference: leaves the old PLC, where what was sent fails, then joins the new one; the same PLC again does nothing |
| Session.Driver.OnHello | apps/plc-link-server/src/session.rs:93-117 | without interference: joins, notes the message, and sends everything queued in order |
| Session.Driver.OnMessage | apps/plc-link-server/src/session.rs:118-128 | without interference: an unnamed session takes the peer's name, then the message may answer a command |
| Session.Driver.End | apps/plc-link-server/src/session.rs:203-207 | nothing stays sent on the session's live connection; a replaced session changes nothing |
| SessionRuns.DetachIsForGood | apps/plc-link-server/src/hub.rs:450-471 | whatever else happens, after its detach a connection is never again the live one of that PLC |
| SessionRuns.AttachIsExclusive | apps/plc-link-server/src/hub.rs:420-447 | whatever else happens, the id of a new connection belongs to no other PLC and speaks through the channel of its session |
| SessionRuns.HelloTakesAll | apps/plc-link-server/src/session.rs:93-117 | every command submitted before the session takes what is queued never waits again, whatever is submitted in between or later |
| SessionRuns.MessagesSpareTheQueue | apps/plc-link-server/src/session.rs:118-128 | a message never ends a command that was not sent, whenever it comes |
| SessionRuns.AttachSteps | apps/plc-link-server/src/session.rs:80-91 | the calls of an attach, as steps of a run with nothing in between, leave what `Session.Driver.Attach` promises |
| SessionRuns.HelloSteps | apps/plc-link-server/src/session.rs:93-117 | the same for a Hello |
| SessionRuns.MessageSteps | apps/plc-link-server/src/session.rs:118-128 | the same for any other message |
| Demo.PushRing | apps/gr-console/src/demo.rs:395-400 | the newest first, ten at most |
| Demo.Side.TakeIn | apps/gr-console/src/demo.rs:1044-1097 | command intake with reply, queue and rejected ring |
| Demo.Side.FileEnded | apps/gr-console/src/demo.rs:1108-1116 | the ended task goes to its ring |
| Demo.Side.RunOp | apps/gr-console/src/demo.rs:1117-1149 | Complete and Delete with the wildcard, as one step of the task machine |
| Demo.Side.Advance | apps/gr-console/src/demo.rs:1171-1187 | the running task takes its next step or ends |
| Demo.Side.Tick | apps/gr-console/src/demo.rs:1019-1277 | one tick is intake, filing, operation, loading, executing, and keeps the invariant |
| DemoExactly.DeleteExactly | apps/gr-console/src/demo.rs:1117-1137 | with a task id exactly the tasks of that key leave the queue, without one exactly those of the work; the running task ends if and only if it is one of them |
| DemoExactly.CompleteExactly | apps/gr-console/src/demo.rs:1138-1149 | the running task with the key ends, else the first queued one is completed, else nothing happens |
| DemoExactly.NoRequest | apps/gr-console/src/demo.rs:1117-1149 | without a request nothing happens |
| DemoExactly.IntakeExactly | apps/gr-console/src/demo.rs:1044-1097 | every flag and code of the reply, and where the task goes |
| DemoExactly.FlushExactly | apps/gr-console/src/demo.rs:1108-1116 | the ended task goes to the ring that says how, newest first, ten at most |
| DemoExactly.LoadExactly | apps/gr-console/src/demo.rs:1150-1170 | the first of the queue starts when none runs and none has just ended |
| DemoExactly.ExecuteExactly | apps/gr-console/src/demo.rs:1171-1187 | the step moves on when its time is over, after the seventh the task ends |
| DemoExactly.InputExactly | apps/gr-console/src/demo.rs:738-752 | a command replaces a waiting one, a request without a work id takes one back |
| DemoTheorems.TasksAreConserved | apps/gr-console/src/demo.rs:1044-1277 | in every run each accepted task is accounted for, rings show the newest ten, running and ended exclude each other |
| DemoTheorems.KeysAreConserved | apps/gr-console/src/demo.rs:1044-1277 | accepted keys are exactly those queued, ended, completed or canceled, even when keys repeat |
| DemoTheorems.DistinctKeysLoseNothing | apps/gr-console/src/demo.rs:1044-1277 | with distinct keys each accepted task is in exactly one place |
| DemoTheorems.AcceptedExactly | apps/gr-console/src/demo.rs:1019-1277 | in a whole tick the pending command is accepted exactly when destination, new header, room and a valid task allow it |
| DemoTheorems.RepeatedHeaderIsRejected | apps/gr-console/src/demo.rs:1044-1090 | a header once processed lets nothing in again, however often it is repeated, with whatever task, ticks and operations in between |
| DemoTheorems.LostExactly | apps/gr-console/src/demo.rs:1271-1277 | ending a task loses others exactly when a queued one shares its key |
| DemoTheorems.ADuplicateIsLost | apps/gr-console/src/demo.rs:1138-1142 | a run in which a second task of the same key disappears |
| Area.GapIsDistance | apps/gr-console/src/area.rs:56-58 | the gap is the least distance between points, and attained |
| Area.HullIsLeast | apps/gr-console/src/area.rs:65-67 | the hull is the least interval that holds all points |
| Area.TightestIsLeast | apps/gr-console/src/area.rs:189-191 | nobody has less slack than the tightest |
| Area.TightestAgreesWithBlocker | apps/gr-console/src/area.rs:188-191 | the tightest slack is negative exactly when someone blocks |
| Area.TightestIsFirst | apps/gr-console/src/area.rs:189-191 | of several with the least slack it is the first |
| Area.BlockerIsFirst | apps/gr-console/src/area.rs:104-106 | who is reported is the first that is too near |
| Area.TaskAreaIsLeast | apps/gr-console/src/area.rs:70-77 | the area of a task lies in exactly the intervals that hold its start, target and drop |
| Area.ReservationIsLeast | apps/gr-console/src/area.rs:97-101 | a reservation lies in exactly the intervals that hold all targets, the drop, and the position while no task is taken |
| Area.CheckExactly | apps/gr-console/src/area.rs:178-186 | a task is let through exactly when everybody else is far enough from its area, or the check is off, or nobody else is there |
| AreaRuns.IssueKeeps | apps/gr-console/src/area.rs:70-106 | issuing an unblocked task that fits keeps all reservations apart |
| AreaRuns.IssueExactly | apps/gr-console/src/area.rs:70-106 | an unblocked task keeps them apart exactly when the robot has a task under way, a known position, no pair or a new one, or nobody is too near the way from the held drop to the target |
| AreaRuns.DropFits | apps/gr-console/src/area.rs:70-106 | delivering the held pair from an unknown place passes the check and fits |
| AreaRuns.FinishShrinks | apps/gr-console/src/area.rs:94-102 | finishing at the target only gives room back |
| AreaRuns.RefuseShrinks | apps/gr-console/src/area.rs:94-102 | so does refusing a task that was not taken |
| AreaRuns.CancelShrinks | apps/gr-console/src/area.rs:94-102 | dropping any task only gives room back exactly when another is still taken, the position is unknown, or it lies in what the robot holds |
| AreaRuns.CancelExactly | apps/gr-console/src/area.rs:94-102 | under that condition, and no other, dropping a task keeps every set of separated robots separated |
| AreaRuns.ReservationsStayApart | apps/gr-console/src/area.rs:163-186 | reservations that start apart stay apart through every run of issues, takes, ends, refusals, cancellations and moves that meet these conditions |
| AreaRuns.HeldPointsStayApart | apps/gr-console/src/area.rs:163-186 | in such a run any two held points are at least separation and margins from each other |
| AreaRuns.CancelBreaks | apps/gr-console/src/area.rs:94-102 | a run of allowed steps after which dropping the taken task breaks the separation |
| AreaRuns.UnknownPositionBreaks | apps/gr-console/src/area.rs:70-83 | an unblocked task for a robot of unknown position with a pair that breaks it |
| Shutdown.RunFollows | apps/gr-console/src/shutdown.rs:76-127 | after the beginning writes only end, the reason stays, the hard deadline only comes nearer |
| Shutdown.EmptyForever | apps/gr-console/src/shutdown.rs:94-104 | no write in flight stays so exactly when the shutdown has begun |
| Shutdown.OkDoesNotLast | apps/gr-console/src/shutdown.rs:94-104 | after the last write has ended the next one starts, unless a shutdown began in between |
| Shutdown.BegunOnce | apps/gr-console/src/shutdown.rs:111-127 | `begin` says true for the first request of a run only, whose reason is reported |
| Shutdown.EntryStays | apps/gr-console/src/shutdown.rs:76-104 | a started write is in flight under its own id until it is dropped |
| Shutdown.BudgetFits | apps/gr-console/src/shutdown.rs:182-187 | the budget respects the normal limit, the absolute deadline and the reserve, wastes nothing of them, and never grows |
| Shutdown.UrgentHurries | apps/gr-console/src/shutdown.rs:111-127 | an urgent request leaves four seconds at most, never more than an earlier one; a normal one none |
| Shutdown.PendingIsAll | apps/gr-console/src/shutdown.rs:144-146 | every write in flight is listed once, oldest first |
| Shutdown.Coordinator.Enter | apps/gr-console/src/shutdown.rs:94-104 | check and registration in one step, with a fresh id |
| Shutdown.Coordinator.Begin | apps/gr-console/src/shutdown.rs:111-127 | sets the state, shortens the deadline, tells whether it was first |
| Shutdown.Coordinator.Look | apps/gr-console/src/shutdown.rs:153-172 | one round: Ok exactly when nothing is in flight, Err with the list exactly when something is and the time or all but the last 1500 ms of the hard deadline are over, a changed list reported once |
| Shutdown.Coordinator.Drain | apps/gr-console/src/shutdown.rs:150-179 | the first wake-up that finds nothing in flight or the time over decides, with the state, the list and the reports up to then |
| Shutdown.DrainDecides | apps/gr-console/src/shutdown.rs:150-179 | it still waits exactly when every wake-up found writes in flight and time left |
| ErrorList.EncodeExactly | crates/evt-catalog/src/errorlist.rs:12-16 | categories 6, 18 and 19, sources 1 and 2, transitions in the ten thousands |
| ErrorList.LettersExactly | crates/evt-catalog/src/errorlist.rs:34-55 | F, W, O and I in either case are the letters, with labels spelled out |
| ErrorList.DecodeEncode | crates/evt-catalog/src/errorlist.rs:195-218 | a row is read back exactly when its number has one to four digits |
| ErrorList.EncodeDecode | crates/evt-catalog/src/errorlist.rs:195-218 | a decoded row encodes to the same category, source and code |
| ErrorList.ParseOfLabel | crates/evt-catalog/src/errorlist.rs:95-109 | a label is read back exactly when its number has one to four digits |
| ErrorList.New | crates/evt-catalog/src/errorlist.rs:335-345 | the indexes hold the first entry of each code and all entries of each event, in order |
| ErrorList.GetIsFirst | crates/evt-catalog/src/errorlist.rs:351-353 | the indexed entry is the first one with this level and number |
| ErrorList.CatalogRefs | crates/evt-catalog/src/errorlist.rs:375-400 | the loops list exactly the references the entries give, event names ascending, and within one the sources ascending |
| ErrorList.UpperExactly | crates/evt-catalog/src/errorlist.rs:34-55 | upper case changes a to z and nothing else |
| ErrorList.TypeExactly | crates/evt-catalog/src/errorlist.rs:277-288 | the given level, else the letter of the code, else information, which is a type of its own for a task |
| ErrorList.ForCatalogExactly | crates/evt-catalog/src/errorlist.rs:360-373 | a type exactly when the entries that count for the source agree on it, with the entry exactly when it is alone |
| ErrorList.RefExactly | crates/evt-catalog/src/errorlist.rs:375-400 | which references the list has: one for all sources with the type all entries share and the code of a lone one, else one per source that settles the type |
| ErrorList.RefsAreUpper | crates/evt-catalog/src/errorlist.rs:375-400 | every event of the list is in upper case |
| ErrorList.FilterAgrees | crates/evt-catalog/src/errorlist.rs:362-400 | the list filter and the reading of single rows give the same types |
| ErrorList.PrefixKeyExactly | crates/evt-catalog/src/errorlist.rs:448-451 | a prefix key is a beginning of the code and a star |
| ErrorList.GetFormat | crates/evt-catalog/src/errorlist.rs:448-451 | the exact code, else the longest prefix key, in whatever order the map is visited |
| ErrorList.OneFormat | crates/evt-catalog/src/errorlist.rs:448-451 | at most one key governs a code |
| Render.PlaceholderExactly | crates/evt-catalog/src/render.rs:97-120 | a body is a placeholder exactly when it is a word of its own, a field with a divisor, or a field with its format words, spelled out |
| Render.Parse | crates/evt-catalog/src/render.rs:121-147 | the loop yields the tokens of the left-to-right reading, which partition the template |
| Render.TokensPartition | crates/evt-catalog/src/render.rs:97-147 | sources concatenate to the template, no literal is empty, no two adjacent, every value comes from an accepted body |
| Record.MergeRanges | apps/gr-console/src/record.rs:332-342 | the loop merges the sorted ranges |
| Record.EveryRangeInOne | apps/gr-console/src/record.rs:331-342 | outputs are sorted and more than the gap apart; each input lies in exactly one |
| Record.OutputsAreTight | apps/gr-console/src/record.rs:331-342 | outputs begin and end where inputs do and read at most the gap behind one |
| Record.MergeAgain | apps/gr-console/src/record.rs:332-342 | merging the result changes nothing |
| LaserRing.LaserDiag.Push | apps/gr-console/src/demo.rs:1697-1708 | the entry is written at the head and becomes the newest |
| LaserRing.LaserDiag.Reset | apps/gr-console/src/demo.rs:1655-1656 | nothing is valid any more, old slots stay |
| LaserRing.ReadsBack | apps/gr-console/src/laser.rs:42-51 | reading the ring gives the newest entries of the history across the wrap-around |
| LaserRing.LaserDiag.Show | apps/gr-console/src/laser.rs:42-51 | the last fifty since the reset, newest first |

## Left out

- LinkHub.Hub.Tick: takes the order of the map as a parameter.
- LinkHub.Hub.Submit: whether the live channel still takes messages is a parameter.
- Shutdown.Coordinator.Drain: the wake-ups are a given finite list, and it reports that it still waits when they are used up.
- Writer.CmdWriter.WriteTask: the node map and the server limit stay the same during one call; a reconnection between the two phases is not modelled.
- Pack.PackStructs: works on normalized members, which the submission has already made; the source normalizes them again.
- Render.Parse: bodies are classified by `Placeholder`; rendering values is not modelled.
- Hub: message log, log query, last messages, views, `set_hello`, `set_format`, `connect_failed`, `send`, `disconnect`, events; they never touch commands or connections. PLC entries are values in the hub's map, which nothing else refers to.
- Hub texts: error messages are structured values; the JSON and hex renderings of a reply are the message itself.
- Session: rejected frames and write events beyond their hub calls.
- OPC UA: registered node ids, read path, write statistics, reconnection loop and session tuning.
- Index arithmetic of `rebase_array_keys` beyond 64 bits, and a rebrowse during a submission.
- `sim_opcua.rs`: node values, JSON pointers and the relay of writes to the demo.
- Demo: event rows, random numbers, physics, measurements, stations, published JSON and the zeroing of command structures; the other fields of a robot task are one number.
- AreaRuns.ReservationsStayApart: a robot with no task under way is taken to stay where its reservation is; what moves the machine is not modelled.
- Area: rounding of 32-bit floats, non-finite positions, registry and snapshot reading; the check is taken as enabled in the run theorems.
- Shutdown: the middleware that refuses write requests, the admin endpoint and the order of the closing steps.
- ErrorList: texts, value specs and guesses, `task_nums`.
- Record: sampling, thinning, export; `lo <= hi` is assumed of layout ranges and `u32` sums do not overflow.
- Laser: sensor bias and calibration sums.
- IEEE rounding: only the exact cases of floating point conversion are assumed.
