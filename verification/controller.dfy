/** Command processing of a controller, with its two checkpoints and the log of what moved an actuator. */
module Controller {
  import opened Wrappers
  import opened RecentCommands
  import opened SafetyGuards

  datatype Admission = Admission(id: string, generation: Generation, source: Name)

  /** Controller state; log and confirmed record the past and are read by no step. */
  datatype Node = Node(guard: Guard, epochDisk: Option<EpochRecord>, memory: Option<Memory>,
                       commandDisk: Option<Checkpoint>, running: Option<Command>,
                       log: seq<Admission>, confirmed: set<Identity>)

  datatype Setup = Setup(limits: Limits, capacity: nat)

  function ParamsOf(u: Setup): Params {
    Params(u.capacity, u.limits.ttl)
  }

  /** Without a command window every command is refused. */
  predicate Shut(n: Node) {
    n.memory == None ==> n.guard.fault
  }

  function WithStore(n: Node, s: Store): Node {
    n.(memory := Some(s.memory), commandDisk := s.disk)
  }

  function WithOwnership(n: Node, owner: Name, generation: Generation, o: SaveOutcome): (Node, bool) {
    var (g, d, ok) := Owned(n.guard, n.epochDisk, owner, generation, o);
    (n.(guard := g, epochDisk := d), ok)
  }

  /** The epoch of the command becomes durable, when it has one. */
  function Fenced(n: Node, c: Command, o: SaveOutcome): (Node, bool) {
    if c.generation == Absent then (n, true) else WithOwnership(n, c.source, c.generation, o)
  }

  function ContextOf(c: Command): Context {
    Context(c.source, c.generation, c.kind, c.issued)
  }

  function Log(c: Command): Admission
    requires c.id.Some?
  {
    Admission(c.id.value, c.generation, c.source)
  }

  /** The intent is written; a command that is admitted starts to move the actuator. */
  function Started(n: Node, u: Setup, c: Command, now: real, o: SaveOutcome): (Node, Option<Reason>)
    requires n.memory.Some? && c.id.Some?
  {
    var before := n.memory.value.entries;
    var (s, v) := Begun(Store(n.memory.value, n.commandDisk), ParamsOf(u), c.id.value, ContextOf(c), now, o);
    var m := WithStore(n, s);
    match v
    case Backpressure => (m, Some(RESULT_BACKPRESSURE))
    case Broken => (m.(guard := n.guard.(fault := true)), Some(STATE_UNAVAILABLE))
    case Done =>
      var evicted := Ids(before) - Ids(s.memory.entries);
      (m.(guard := n.guard.(executed := n.guard.executed - evicted + {c.id.value}),
          running := Some(c), log := n.log + [Log(c)]), None)
  }

  /** Check, durable epoch, durable intent. */
  function Admitted(n: Node, u: Setup, c: Command, now: real, mono: real, epochSave: SaveOutcome,
                    intentSave: SaveOutcome)
    : (Node, Option<Reason>)
    requires Shut(n)
  {
    match Refusal(n.guard, u.limits, c, now, mono)
    case Some(r) => (n, Some(r))
    case None =>
      var (m, ok) := Fenced(n, c, epochSave);
      if !ok then (m, Some(STATE_UNAVAILABLE)) else Started(m, u, c, now, intentSave)
  }

  function QueueIn(n: Node, u: Setup, w: Wire, o: SaveOutcome): Node
    requires n.memory.Some?
  {
    var (s, v) := Queued(Store(n.memory.value, n.commandDisk), ParamsOf(u), w, o);
    var m := WithStore(n, s);
    if v == Broken then m.(guard := m.guard.(fault := true)) else m
  }

  function Refused(c: Command, reason: Reason): Result {
    Result(c.id, c.kind, None, c.generation,
           if reason == DUPLICATE_COMMAND_ID then DUPLICATE else REJECTED, Some(reason))
  }

  /** The result reported for a refused command; a repeated one reports its original outcome. */
  function Reported(m: Memory, c: Command, reason: Reason): Result {
    var i := IndexOf(m.entries, c.id);
    if reason == DUPLICATE_COMMAND_ID && i < |m.entries| then
      if m.entries[i].result.Some? then m.entries[i].result.value
      else Refused(c, reason).(status := UNKNOWN, reason := Some(INTERRUPTED_EXECUTION))
    else Refused(c, reason)
  }

  function Replied(n: Node, u: Setup, c: Command, reason: Reason, stamp: real, o: SaveOutcome): Node {
    if n.memory == None then n
    else QueueIn(n, u, ResultMessage(n.memory.value, Reported(n.memory.value, c, reason), c.source, stamp), o)
  }

  /** The first half of process_command, up to the movement of the actuator or the refusal. */
  function Delivered(n: Node, u: Setup, c: Command, now: real, mono: real, saves: seq<SaveOutcome>): Node
    requires Shut(n) && |saves| == 3
  {
    var (m, refusal) := Admitted(n, u, c, now, mono, saves[0], saves[1]);
    if refusal == None then m else Replied(m, u, c, refusal.value, now, saves[2])
  }

  function ExecutedResult(c: Command): Result {
    Result(c.id, c.kind, c.duration, c.generation, EXECUTED, None)
  }

  function Completed(n: Node, u: Setup, c: Command, now: real, o: SaveOutcome): (Node, Verdict)
    requires n.memory.Some? && c.id.Some?
  {
    var m := n.memory.value;
    var w := ResultMessage(m, ExecutedResult(c), c.source, now);
    var (s, v) := Finished(Store(m, n.commandDisk), ParamsOf(u), c.id.value, ExecutedResult(c), w, o);
    var after := WithStore(n, s);
    (if v == Done then after else after.(guard := after.guard.(fault := true)), v)
  }

  /** The second half of process_command, after the actuator moved. */
  function Ended(n: Node, u: Setup, c: Command, now: real, mono: real, saves: seq<SaveOutcome>): Node
    requires n.memory.Some? && c.id.Some? && c.kind.Some? && |saves| == 2
  {
    var g := Recorded(n.guard, c.id.value, c.kind.value, c.generation, c.source, mono);
    var (m, v) := Completed(n.(guard := g, running := None), u, c, now, saves[0]);
    var result := if v == Done then ExecutedResult(c)
                  else ExecutedResult(c).(status := UNKNOWN, reason := Some(STATE_UNAVAILABLE));
    QueueIn(m, u, ResultMessage(m.memory.value, result, c.source, now), saves[1])
  }

  /** A result acknowledgement; a failed save is only counted. */
  function ResultAcked(n: Node, u: Setup, k: Identity, o: SaveOutcome): Node {
    if n.memory == None then n
    else
      var s := Acknowledged(Store(n.memory.value, n.commandDisk), ParamsOf(u), k, o).0;
      WithStore(n, s).(confirmed := if k in n.memory.value.pending then n.confirmed + {k} else n.confirmed)
  }

  predicate Unreported(r: Row, pending: map<Identity, Wire>) {
    r.state == INTENT && r.context.Some? && Some(r.id) !in Protected(pending)
  }

  function Interrupted(r: Row): Result
    requires r.context.Some?
  {
    Result(Some(r.id), r.context.value.kind, None, r.context.value.generation, UNKNOWN, Some(INTERRUPTED_EXECUTION))
  }

  /** _recover_interrupted_results over the remaining rows; a failed call ends it. */
  function Recovered(n: Node, u: Setup, rows: seq<Row>, now: real, saves: seq<SaveOutcome>): Node
    requires n.memory.Some? && |saves| == |rows|
    decreases |rows|
  {
    if rows == [] then n
    else if !Unreported(rows[0], n.memory.value.pending) then Recovered(n, u, rows[1..], now, saves[1..])
    else
      var m := n.memory.value;
      var w := ResultMessage(m, Interrupted(rows[0]), rows[0].context.value.source, now);
      var (s, v) := Queued(Store(m, n.commandDisk), ParamsOf(u), w, saves[0]);
      if v == Done then Recovered(WithStore(n, s), u, rows[1..], now, saves[1..])
      else WithStore(n, s).(guard := n.guard.(fault := true))
  }

  /** What a start depends on: both reads, the first save and the saves of the recovery. */
  datatype Boot = Boot(epochReadable: bool, commandsReadable: bool, save: SaveOutcome, recovery: seq<SaveOutcome>)

  function Reloaded(n: Node, u: Setup, boot: Boot, now: real, mono: real): Node {
    var g := Restored(u.limits, n.epochDisk, boot.epochReadable, mono);
    var (memory, disk) := Loaded(n.commandDisk, ParamsOf(u), boot.commandsReadable, now, boot.save);
    n.(guard := if memory == None then g.(fault := true) else g.(executed := Ids(memory.value.entries)),
       memory := memory, commandDisk := disk, running := None)
  }

  function Padded(saves: seq<SaveOutcome>, n: nat): (r: seq<SaveOutcome>)
    ensures |r| == n
  {
    if n == 0 then []
    else if saves == [] then [Committed] + Padded([], n - 1)
    else [saves[0]] + Padded(saves[1..], n - 1)
  }

  function Restarted(n: Node, u: Setup, boot: Boot, now: real, mono: real): Node {
    var m := Reloaded(n, u, boot, now, mono);
    if m.memory == None then m
    else Recovered(m, u, m.memory.value.entries, now, Padded(boot.recovery, |m.memory.value.entries|))
  }

  // ---- runs --------------------------------------------------------------------------------------

  datatype Event =
    | Deliver(command: Command, now: real, mono: real, epochSave: SaveOutcome, intentSave: SaveOutcome,
              resultSave: SaveOutcome)
    | Finish(now: real, mono: real, outcomeSave: SaveOutcome, resultSave: SaveOutcome)
    | SetOwner(owner: Name, generation: Generation, now: real, save: SaveOutcome)
    | Ack(identity: Identity, now: real, save: SaveOutcome)
    | Restart(boot: Boot, now: real, mono: real)

  predicate Ready(n: Node) {
    Shut(n) && (n.running.Some? ==> n.memory.Some? && n.running.value.id.Some? && n.running.value.kind.Some?)
  }

  /** One command at a time; everything else may happen at any point. */
  function Step(n: Node, u: Setup, e: Event): Node
    requires Ready(n)
  {
    match e
    case Deliver(c, now, mono, o1, o2, o3) =>
      if n.running.Some? then n else Delivered(n, u, c, now, mono, [o1, o2, o3])
    case Finish(now, mono, o1, o2) =>
      if n.running.Some? then Ended(n, u, n.running.value, now, mono, [o1, o2]) else n
    case SetOwner(owner, generation, _, o) => WithOwnership(n, owner, generation, o).0
    case Ack(k, _, o) => ResultAcked(n, u, k, o)
    case Restart(boot, now, mono) => Restarted(n, u, boot, now, mono)
  }

  // ---- messages of the gateway ------------------------------------------------------------------------

  /** The ownership fields of a NODE_STATUS; an owner that is no name is None. */
  datatype Notice = Notice(source: Name, target: Name, owner: Option<Name>, generation: Generation)

  /** A notice counts when it comes from the connected gateway, is meant for this node and claims it. */
  predicate Claims(n: Notice, gatewayId: Name, nodeId: Name) {
    && n.owner == Some(gatewayId) && n.source == gatewayId && n.target == nodeId
    && n.generation.Epoch? && n.generation.value >= 0
  }

  /** The fields of a PERSISTED_ACK. */
  datatype Receipt = Receipt(persistedAck: bool, source: Name, target: Name, persisted: bool, scope: string,
                             contract: string, resultState: string, identity: Identity)

  const CONTRACT := "controller-result-durable-v1"

  predicate Confirms(r: Receipt, gatewayId: Name, nodeId: Name) {
    && r.persistedAck && r.source == gatewayId && r.target == nodeId && r.persisted
    && r.scope == "CONTROL_RESULTS" && r.contract == CONTRACT && r.resultState == "RESULT_DURABLY_STORED"
  }

  // ---- the node ------------------------------------------------------------------------------------

  class ControllerNode {
    const setup: Setup
    const nodeId: Name
    const guard: SafetyGuard
    const commands: RecentCommandStore
    /** False when the command window could not be restored. */
    var open: bool
    var running: Option<Command>
    ghost var log: seq<Admission>
    ghost var confirmed: set<Identity>

    ghost function View(): Node
      reads this, guard, commands
    {
      Node(guard.View(), guard.disk, if open then Some(commands.View().memory) else None, commands.disk,
           running, log, confirmed)
    }

    ghost predicate Valid()
      reads this, guard, commands
    {
      guard.limits == setup.limits && commands.params == ParamsOf(setup) && Ready(View())
    }

    /** A start of the process from the two checkpoints; previous is the node before it. */
    constructor (setup: Setup, nodeId: Name, epochDisk: Option<EpochRecord>, commandDisk: Option<Checkpoint>,
                 boot: Boot, now: real, mono: real, ghost previous: Node)
      requires previous.epochDisk == epochDisk && previous.commandDisk == commandDisk
      ensures Valid() && View() == Restarted(previous, setup, boot, now, mono)
      ensures fresh(guard) && fresh(commands) && this.setup == setup && this.nodeId == nodeId
    {
      this.setup, this.nodeId := setup, nodeId;
      var g := new SafetyGuard(setup.limits, epochDisk, boot.epochReadable, mono);
      var store := new RecentCommandStore(ParamsOf(setup), commandDisk);
      var ok := store.Load(boot.commandsReadable, now, boot.save);
      guard, commands, open, running := g, store, ok, None;
      log, confirmed := previous.log, previous.confirmed;
      new;
      if ok {
        g.executed := Ids(store.entries);
        assert View() == Reloaded(previous, setup, boot, now, mono);
        Recover(now, Padded(boot.recovery, |store.entries|));
      } else {
        g.fault := true;
        assert View() == Reloaded(previous, setup, boot, now, mono);
      }
    }

    /** _recover_interrupted_results. */
    method Recover(now: real, saves: seq<SaveOutcome>)
      requires Valid() && open && running == None && |saves| == |commands.entries|
      modifies guard, commands
      ensures Valid() && View() == Recovered(old(View()), setup, old(commands.entries), now, saves)
    {
      hide Queued, ResultMessage;
      ghost var before := View();
      var rows := commands.entries;
      var i := 0;
      while i < |rows|
        invariant i <= |rows| && Valid()
        invariant guard.disk == old(guard.disk)
        invariant Recovered(before, setup, rows, now, saves) == Recovered(View(), setup, rows[i..], now, saves[i..])
      {
        if Unreported(rows[i], commands.pending) {
          var m := Memory(commands.entries, commands.pending);
          var w := ResultMessage(m, Interrupted(rows[i]), rows[i].context.value.source, now);
          var v := commands.QueueResult(w, saves[i]);
          if v != Done {
            guard.fault := true;
            return;
          }
        }
        i := i + 1;
      }
    }

    /** Queues a result; a failed save closes the guard, a full window only drops the result. */
    method Queue(w: Wire, o: SaveOutcome)
      requires Valid() && open && running == None
      modifies guard, commands
      ensures Valid() && View() == QueueIn(old(View()), setup, w, o)
    {
      hide Queued;
      var v := commands.QueueResult(w, o);
      if v == Broken {
        guard.fault := true;
      }
    }

    /** The durable intent; None lets the actuator move. */
    method Start(c: Command, now: real, o: SaveOutcome) returns (refusal: Option<Reason>)
      requires Valid() && open && running == None && c.id.Some? && c.kind.Some?
      modifies this, guard, commands
      ensures Valid() && open && (refusal.Some? ==> running == None)
      ensures (View(), refusal) == Started(old(View()), setup, c, now, o)
    {
      hide Begun;
      var previous := Ids(commands.entries);
      var v := commands.Begin(c.id.value, ContextOf(c), now, o);
      if v == Backpressure {
        return Some(RESULT_BACKPRESSURE);
      }
      if v == Broken {
        guard.fault := true;
        return Some(STATE_UNAVAILABLE);
      }
      guard.executed := guard.executed - (previous - Ids(commands.entries)) + {c.id.value};
      running, log := Some(c), log + [Log(c)];
      refusal := None;
    }

    /** process_command up to the movement of the actuator, or to its refusal. */
    method Deliver(c: Command, now: real, mono: real, saves: seq<SaveOutcome>)
      requires Valid() && running == None && |saves| == 3
      modifies this, guard, commands
      ensures Valid() && View() == Delivered(old(View()), setup, c, now, mono, saves)
    {
      hide Started, Owned, QueueIn, ResultMessage, Reported;
      var refusal := guard.Check(c, now, mono);
      if refusal == None {
        if c.generation != Absent {
          var ok := guard.SetOwnership(c.source, c.generation, saves[0]);
          OwnedKeepsFault(old(guard.View()), old(guard.disk), c.source, c.generation, saves[0]);
          if !ok {
            refusal := Some(STATE_UNAVAILABLE);
          }
        }
        if refusal == None {
          refusal := Start(c, now, saves[1]);
        }
      }
      if refusal.Some? && open {
        var m := Memory(commands.entries, commands.pending);
        var w := ResultMessage(m, Reported(m, c, refusal.value), c.source, now);
        Queue(w, saves[2]);
      }
    }

    /** process_command after the actuator moved. */
    method End(now: real, mono: real, saves: seq<SaveOutcome>)
      requires Valid() && running.Some? && |saves| == 2
      modifies this, guard, commands
      ensures Valid() && View() == Ended(old(View()), setup, old(running).value, now, mono, saves)
    {
      hide Recorded, Finished, QueueIn, ResultMessage;
      var c := running.value;
      guard.Commit(c.id.value, c.kind.value, c.generation, c.source, mono);
      RecordedKeepsFault(old(guard.View()), c, mono);
      running := None;
      var result := ExecutedResult(c);
      var w := ResultMessage(Memory(commands.entries, commands.pending), result, c.source, now);
      var v := commands.Complete(c.id.value, result, w, saves[0]);
      if v != Done {
        guard.fault := true;
        result := result.(status := UNKNOWN, reason := Some(STATE_UNAVAILABLE));
      }
      w := ResultMessage(Memory(commands.entries, commands.pending), result, c.source, now);
      Queue(w, saves[1]);
    }

    /** _adopt_ownership: a notice of the connected gateway that claims this node. */
    method AdoptOwnership(n: Notice, gatewayId: Name, o: SaveOutcome)
      requires Valid()
      modifies guard
      ensures Valid()
      ensures View() == if Claims(n, gatewayId, nodeId)
                        then WithOwnership(old(View()), gatewayId, n.generation, o).0 else old(View())
      ensures View() != old(View()) ==> n.owner == Some(gatewayId) && n.source == gatewayId && n.target == nodeId
    {
      hide Owned;
      if n.owner != Some(gatewayId) || n.source != gatewayId || n.target != nodeId
         || !n.generation.Epoch? || n.generation.value < 0 {
        return;
      }
      OwnedKeepsFault(guard.View(), guard.disk, gatewayId, n.generation, o);
      var ok := guard.SetOwnership(gatewayId, n.generation, o);
    }

    /** _accept_result_ack. */
    method AcceptResultAck(r: Receipt, gatewayId: Name, o: SaveOutcome)
      requires Valid()
      modifies this, commands
      ensures Valid()
      ensures View() == if Confirms(r, gatewayId, nodeId) then ResultAcked(old(View()), setup, r.identity, o)
              else old(View())
      ensures View() != old(View()) ==>
                r.source == gatewayId && r.target == nodeId && r.persisted && r.resultState == "RESULT_DURABLY_STORED"
    {
      hide Acknowledged;
      if !open || !Confirms(r, gatewayId, nodeId) {
        return;
      }
      confirmed := if r.identity in commands.pending then confirmed + {r.identity} else confirmed;
      var v := commands.AcknowledgeResult(r.identity, o);
    }
  }

  lemma OwnedKeepsFault(g: Guard, d: Option<EpochRecord>, owner: Name, generation: Generation, o: SaveOutcome)
    ensures g.fault ==> Owned(g, d, owner, generation, o).0.fault
  {
  }

  lemma RecordedKeepsFault(g: Guard, c: Command, mono: real)
    requires c.id.Some? && c.kind.Some?
    ensures Recorded(g, c.id.value, c.kind.value, c.generation, c.source, mono).fault == g.fault
  {
  }
}
