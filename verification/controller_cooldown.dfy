/** What moved when: limits, freshness and rest of the actuators, over every run of a controller. */
module ControllerCooldown {
  import opened Wrappers
  import opened RecentCommands
  import opened SafetyGuards
  import opened Controller
  import CT = ControllerTheorems

  /** What an observer beside the actuator and the power supply writes down; durable: an epoch was on record. */
  datatype Mark =
    | On(command: Command, now: real, mono: real)
    | Off(command: Command, mono: real)
    | PowerUp(durable: bool, mono: real)

  function MarkOf(n: Node, u: Setup, e: Event): seq<Mark>
    requires Ready(n)
  {
    match e
    case Deliver(c, now, mono, _, _, _) => if Step(n, u, e).log == n.log then [] else [On(c, now, mono)]
    case Finish(_, mono, _, _) => if n.running == None then [] else [Off(n.running.value, mono)]
    case Restart(_, _, mono) => [PowerUp(n.epochDisk.Some?, mono)]
    case _ => []
  }

  /** The run from n leads to m, and marks is what the observer wrote. */
  ghost predicate Observed(n: Node, u: Setup, events: seq<Event>, marks: seq<Mark>, m: Node)
    decreases |events|
  {
    if events == [] then n == m && marks == []
    else
      && Ready(n) && MarkOf(n, u, events[0]) <= marks
      && Observed(Step(n, u, events[0]), u, events[1..], marks[|MarkOf(n, u, events[0])|..], m)
  }

  function Monotonic(e: Event, clock: real): real {
    if e.Deliver? || e.Finish? || e.Restart? then e.mono else clock
  }

  /** Within a boot the monotonic clock does not go back; a restart may begin anywhere. */
  ghost predicate Ticking(events: seq<Event>, clock: real)
    decreases |events|
  {
    events != [] ==>
      (events[0].Restart? || clock <= Monotonic(events[0], clock)) && Ticking(events[1..], Monotonic(events[0], clock))
  }

  function Cooldown(l: Limits, kind: Option<string>): real {
    if kind.Some? && kind.value in l.cooldown then l.cooldown[kind.value] else 0.0
  }

  // ---- one step --------------------------------------------------------------------------------------

  /** Whatever else changes: no rest is forgotten, a fault stays, a durable epoch stays. */
  ghost predicate SameRest(n: Node, m: Node) {
    && m.guard.last == n.guard.last && (n.guard.fault ==> m.guard.fault)
    && (n.epochDisk.Some? ==> m.epochDisk.Some?)
  }

  lemma QueueSameRest(n: Node, u: Setup, w: Wire, o: SaveOutcome)
    requires n.memory.Some?
    ensures SameRest(n, QueueIn(n, u, w, o)) && QueueIn(n, u, w, o).log == n.log
    ensures QueueIn(n, u, w, o).running == n.running
  {
    hide Queued;
  }

  lemma OwnershipSameRest(n: Node, owner: Name, generation: Generation, o: SaveOutcome)
    ensures var (m, ok) := WithOwnership(n, owner, generation, o);
            && SameRest(n, m) && m.log == n.log && m.running == n.running && m.memory == n.memory
            && (ok ==> m.epochDisk.Some?)
  {
  }

  lemma StartedRest(n: Node, u: Setup, c: Command, now: real, o: SaveOutcome)
    requires n.memory.Some? && c.id.Some?
    ensures var (m, r) := Started(n, u, c, now, o);
            && SameRest(n, m) && m.memory.Some?
            && (if r == None then m.log == n.log + [Log(c)] && m.running == Some(c)
                else m.log == n.log && m.running == n.running)
  {
    hide Begun;
  }

  /** The command was fresh, within its limits and its actuator had rested. */
  ghost predicate Fit(g: Guard, l: Limits, c: Command, now: real, mono: real) {
    && !g.fault && c.id.Some? && c.id.value != "" && c.kind.Some? && c.kind.value in l.maxDuration
    && c.duration.Some? && 0.0 < c.duration.value <= l.maxDuration[c.kind.value]
    && now - l.ttl <= c.issued <= now + l.ttl
    && (c.kind.value in g.last ==> mono >= g.last[c.kind.value] + Cooldown(l, c.kind))
  }

  lemma DeliveredRest(n: Node, u: Setup, c: Command, now: real, mono: real, saves: seq<SaveOutcome>)
    requires Shut(n) && n.running == None && |saves| == 3
    ensures var m := Delivered(n, u, c, now, mono, saves);
            && SameRest(n, m)
            && (if m.log == n.log then m.running == None
                else
                  && Fit(n.guard, u.limits, c, now, mono) && m.log == n.log + [Log(c)] && m.running == Some(c)
                  && (c.generation.Epoch? ==> m.epochDisk.Some?))
  {
    hide Started, WithOwnership, QueueIn, ResultMessage, Reported;
    OwnershipSameRest(n, c.source, c.generation, saves[0]);
    if Refusal(n.guard, u.limits, c, now, mono) == None {
      var (p, ok) := Fenced(n, c, saves[0]);
      if ok {
        StartedRest(p, u, c, now, saves[1]);
      }
    }
    var (p, r) := Admitted(n, u, c, now, mono, saves[0], saves[1]);
    if r.Some? && p.memory.Some? {
      var w := ResultMessage(p.memory.value, Reported(p.memory.value, c, r.value), c.source, now);
      QueueSameRest(p, u, w, saves[2]);
    }
  }

  /** The end of a movement is the time its kind last ran. */
  lemma EndedRest(n: Node, u: Setup, now: real, mono: real, saves: seq<SaveOutcome>)
    requires Ready(n) && n.running.Some? && |saves| == 2
    ensures var (m, kind) := (Ended(n, u, n.running.value, now, mono, saves), n.running.value.kind.value);
            && m.running == None && m.log == n.log
            && (forall k :: k in n.guard.last || k == kind ==>
                  k in m.guard.last && m.guard.last[k] == if k == kind then mono else n.guard.last[k])
            && (n.guard.fault ==> m.guard.fault) && (n.epochDisk.Some? ==> m.epochDisk.Some?)
  {
    hide QueueIn, ResultMessage, Finished;
    var c := n.running.value;
    var g := Recorded(n.guard, c.id.value, c.kind.value, c.generation, c.source, mono);
    var (m, v) := Completed(n.(guard := g, running := None), u, c, now, saves[0]);
    var result := if v == Done then ExecutedResult(c)
                  else ExecutedResult(c).(status := UNKNOWN, reason := Some(STATE_UNAVAILABLE));
    QueueSameRest(m, u, ResultMessage(m.memory.value, result, c.source, now), saves[1]);
  }

  lemma {:induction false} RecoveredRest(n: Node, u: Setup, rows: seq<Row>, now: real, saves: seq<SaveOutcome>)
    requires n.memory.Some? && |saves| == |rows|
    ensures var m := Recovered(n, u, rows, now, saves);
            SameRest(n, m) && m.log == n.log && m.running == n.running && m.memory.Some?
    decreases |rows|
  {
    hide Queued, ResultMessage, Unreported;
    if rows != [] {
      var m := n.memory.value;
      if !Unreported(rows[0], m.pending) {
        RecoveredRest(n, u, rows[1..], now, saves[1..]);
      } else {
        CT.UnreportedContext(rows[0], m.pending);
        var w := ResultMessage(m, Interrupted(rows[0]), rows[0].context.value.source, now);
        var s := Queued(Store(m, n.commandDisk), ParamsOf(u), w, saves[0]).0;
        RecoveredRest(WithStore(n, s), u, rows[1..], now, saves[1..]);
      }
    }
  }

  /** A start from a durable epoch lets every kind rest in full, or refuses everything. */
  lemma RestartedRest(n: Node, u: Setup, boot: Controller.Boot, now: real, mono: real)
    ensures var m := Restarted(n, u, boot, now, mono);
            && m.running == None && m.log == n.log && (n.epochDisk.Some? ==> m.epochDisk.Some?)
            && (n.epochDisk.Some? && !m.guard.fault ==>
                  forall k :: k in u.limits.cooldown ==> k in m.guard.last && m.guard.last[k] == mono)
            && (n.epochDisk == None ==> m.guard.last == map[])
  {
    hide Loaded;
    var m := Reloaded(n, u, boot, now, mono);
    if m.memory.Some? {
      RecoveredRest(m, u, m.memory.value.entries, now, Padded(boot.recovery, |m.memory.value.entries|));
    }
  }

  // ---- the invariant -----------------------------------------------------------------------------------

  /** Mark i belongs to the boot in which marks ends. */
  ghost predicate Recent(marks: seq<Mark>, i: int) {
    0 <= i < |marks| && forall j :: i < j < |marks| ==> !marks[j].PowerUp?
  }

  /** What the guard remembers of a mark of this boot. */
  ghost predicate Remembers(g: Guard, l: Limits, k: Mark) {
    match k
    case On(_, _, _) => true
    case Off(c, mono) => c.kind.Some? && (!g.fault ==> c.kind.value in g.last && mono <= g.last[c.kind.value])
    case PowerUp(durable, mono) =>
      durable && !g.fault ==> forall kind :: kind in l.cooldown ==> kind in g.last && mono <= g.last[kind]
  }

  /** The command under way is the last one that began in this boot, and nothing ended since. */
  ghost predicate UnderWay(n: Node, marks: seq<Mark>) {
    if n.running == None then marks == [] || !marks[|marks| - 1].On?
    else marks != [] && marks[|marks| - 1].On? && marks[|marks| - 1].command == n.running.value
  }

  ghost predicate Durable(n: Node, marks: seq<Mark>) {
    && (forall i :: 0 <= i < |marks| && marks[i].On? && marks[i].command.generation.Epoch? ==> n.epochDisk.Some?)
    && (forall i, j :: 0 <= i < j < |marks| && marks[i].On? && marks[i].command.generation.Epoch? && marks[j].PowerUp?
          ==> marks[j].durable)
  }

  ghost predicate Inv(n: Node, l: Limits, marks: seq<Mark>, clock: real) {
    && UnderWay(n, marks) && Durable(n, marks)
    && (forall i :: Recent(marks, i) ==> Remembers(n.guard, l, marks[i]) && marks[i].mono <= clock)
  }

  // ---- the law -------------------------------------------------------------------------------------------

  /** A movement that begins at mark j keeps every limit and follows every earlier mark of its boot by the rest due. */
  ghost predicate Allowed(l: Limits, marks: seq<Mark>, j: nat)
    requires j < |marks| && marks[j].On?
  {
    var (c, now) := (marks[j].command, marks[j].now);
    && c.id.Some? && c.id.value != "" && c.kind.Some? && c.kind.value in l.maxDuration
    && c.duration.Some? && 0.0 < c.duration.value <= l.maxDuration[c.kind.value]
    && now - l.ttl <= c.issued <= now + l.ttl
    && forall i :: Recent(marks[..j], i) ==>
         && (marks[i].Off? && marks[i].command.kind == c.kind ==> marks[j].mono >= marks[i].mono + Cooldown(l, c.kind))
         && (marks[i].PowerUp? && marks[i].durable ==> marks[j].mono >= marks[i].mono + Cooldown(l, c.kind))
  }

  ghost predicate AllAllowed(l: Limits, marks: seq<Mark>) {
    forall j :: 0 <= j < |marks| && marks[j].On? ==> Allowed(l, marks, j)
  }

  lemma AllowedBefore(l: Limits, marks: seq<Mark>, more: seq<Mark>)
    requires AllAllowed(l, marks) && forall i :: 0 <= i < |more| ==> !more[i].On?
    ensures AllAllowed(l, marks + more)
  {
    hide Cooldown;
    forall j | 0 <= j < |marks + more| && (marks + more)[j].On? ensures Allowed(l, marks + more, j) {
      assert (marks + more)[j] == marks[j] && (marks + more)[..j] == marks[..j];
      assert Allowed(l, marks, j);
    }
  }

  lemma AllowedNow(n: Node, l: Limits, marks: seq<Mark>, clock: real, c: Command, now: real, mono: real)
    requires Inv(n, l, marks, clock) && AllAllowed(l, marks) && Fit(n.guard, l, c, now, mono) && clock <= mono
    ensures AllAllowed(l, marks + [On(c, now, mono)])
  {
    var t := marks + [On(c, now, mono)];
    forall j | 0 <= j < |t| && t[j].On? ensures Allowed(l, t, j) {
      if j < |marks| {
        assert t[j] == marks[j] && t[..j] == marks[..j];
        assert Allowed(l, marks, j);
      } else {
        assert t[..j] == marks;
        forall i | Recent(marks, i)
          ensures t[i] == marks[i] && Remembers(n.guard, l, marks[i]) && marks[i].mono <= clock
        {
        }
      }
    }
  }

  /** Marks of the boot after one more mark. */
  lemma RecentGrows(marks: seq<Mark>, k: Mark)
    ensures forall i :: Recent(marks + [k], i) <==> i == |marks| || (!k.PowerUp? && Recent(marks, i))
  {
    var t := marks + [k];
    assert t[|marks|] == k;
    forall i ensures Recent(t, i) <==> i == |marks| || (!k.PowerUp? && Recent(marks, i)) {
      if 0 <= i < |marks| {
        assert forall j :: i < j < |marks| ==> t[j] == marks[j];
      }
    }
  }

  lemma StepRest(n: Node, u: Setup, marks: seq<Mark>, clock: real, e: Event)
    requires Ready(n) && Inv(n, u.limits, marks, clock) && AllAllowed(u.limits, marks)
    requires e.Restart? || clock <= Monotonic(e, clock)
    ensures var t := marks + MarkOf(n, u, e);
            Inv(Step(n, u, e), u.limits, t, Monotonic(e, clock)) && AllAllowed(u.limits, t)
  {
    hide Delivered, Ended, WithOwnership, ResultAcked, Restarted, Cooldown, Fit;
    var m, l := Step(n, u, e), u.limits;
    var k := MarkOf(n, u, e);
    match e
    case Deliver(c, now, mono, o1, o2, o3) =>
      if n.running == None {
        DeliveredRest(n, u, c, now, mono, [o1, o2, o3]);
        if m.log != n.log {
          AllowedNow(n, l, marks, clock, c, now, mono);
          RecentGrows(marks, On(c, now, mono));
        }
      }
      if k == [] { assert marks + k == marks; }
    case Finish(now, mono, o1, o2) =>
      if n.running.Some? {
        EndedRest(n, u, now, mono, [o1, o2]);
        RecentGrows(marks, Off(n.running.value, mono));
        AllowedBefore(l, marks, k);
      } else {
        assert marks + k == marks;
      }
    case SetOwner(owner, generation, _, o) =>
      OwnershipSameRest(n, owner, generation, o);
      assert marks + k == marks;
    case Ack(i, _, o) =>
      AckedRest(n, u, i, o);
      assert marks + k == marks;
    case Restart(boot, now, mono) =>
      RestartedRest(n, u, boot, now, mono);
      RecentGrows(marks, PowerUp(n.epochDisk.Some?, mono));
      AllowedBefore(l, marks, k);
  }

  lemma AckedRest(n: Node, u: Setup, k: Identity, o: SaveOutcome)
    ensures SameRest(n, ResultAcked(n, u, k, o)) && ResultAcked(n, u, k, o).running == n.running
  {
    hide Acknowledged;
  }

  // ---- whole runs ------------------------------------------------------------------------------------------

  /** A movement ends before the next begins, unless the power was lost. */
  ghost predicate Alternates(marks: seq<Mark>) {
    && (forall i :: 0 < i < |marks| && marks[i].On? ==> !marks[i - 1].On?)
    && (forall i :: 0 < i < |marks| && marks[i].Off? ==> marks[i - 1].On? && marks[i].command == marks[i - 1].command)
  }

  lemma StepAlternates(n: Node, u: Setup, marks: seq<Mark>, e: Event)
    requires Ready(n) && UnderWay(n, marks) && Alternates(marks)
    ensures Alternates(marks + MarkOf(n, u, e))
  {
    hide Delivered, Ended, WithOwnership, ResultAcked, Restarted;
    var t := marks + MarkOf(n, u, e);
    assert forall i :: 0 <= i < |marks| ==> t[i] == marks[i];
  }

  lemma {:induction false} RunRest(n: Node, u: Setup, past: seq<Mark>, clock: real, events: seq<Event>,
                                   marks: seq<Mark>, m: Node)
    requires Inv(n, u.limits, past, clock) && AllAllowed(u.limits, past) && Alternates(past)
    requires Observed(n, u, events, marks, m) && Ticking(events, clock)
    ensures AllAllowed(u.limits, past + marks) && Alternates(past + marks) && Durable(m, past + marks)
    decreases |events|
  {
    hide Inv, Step, MarkOf, AllAllowed, Alternates, Durable, Monotonic;
    if events == [] {
      assert past + marks == past;
      InvDurable(n, u.limits, past, clock);
    } else {
      var e := events[0];
      var k := MarkOf(n, u, e);
      InvDurable(n, u.limits, past, clock);
      StepRest(n, u, past, clock, e);
      StepAlternates(n, u, past, e);
      RunRest(Step(n, u, e), u, past + k, Monotonic(e, clock), events[1..], marks[|k|..], m);
      assert past + k + marks[|k|..] == past + marks;
    }
  }

  lemma InvDurable(n: Node, l: Limits, marks: seq<Mark>, clock: real)
    requires Inv(n, l, marks, clock)
    ensures Durable(n, marks) && UnderWay(n, marks)
  {
  }

  /**
   * Over every run with restarts and failing saves: a movement has a known kind, a duration within its
   * limit and a fresh command, and it begins a full cooldown after every earlier movement of its kind
   * in the same boot, and after the start when an epoch was on record.
   */
  lemma ActuatorsRest(u: Setup, clock: real, events: seq<Event>, marks: seq<Mark>, m: Node)
    requires Observed(CT.BLANK, u, events, marks, m) && Ticking(events, clock)
    ensures AllAllowed(u.limits, marks) && Alternates(marks)
  {
    hide AllAllowed, Alternates;
    BlankRest(u.limits, clock);
    RunRest(CT.BLANK, u, [], clock, events, marks, m);
    assert [] + marks == marks;
  }

  lemma BlankRest(l: Limits, clock: real)
    ensures Inv(CT.BLANK, l, [], clock) && AllAllowed(l, []) && Alternates([])
  {
  }

  function LastPowerUp(marks: seq<Mark>): (r: int)
    ensures -1 <= r < |marks| && forall j :: r < j < |marks| ==> !marks[j].PowerUp?
    ensures r >= 0 ==> marks[r].PowerUp?
  {
    if marks == [] then -1
    else if marks[|marks| - 1].PowerUp? then |marks| - 1
    else LastPowerUp(marks[..|marks| - 1])
  }

  /**
   * Between two movements of one kind, the first by a command with an epoch, the actuator rests a full
   * cooldown, counted from the end of the first or, when a crash cut it off, from a later start.
   */
  lemma FullRestBetween(u: Setup, clock: real, events: seq<Event>, marks: seq<Mark>, m: Node, i: nat, j: nat)
    requires Observed(CT.BLANK, u, events, marks, m) && Ticking(events, clock)
    requires i < j < |marks| && marks[i].On? && marks[j].On? && marks[i].command.generation.Epoch?
    requires marks[i].command.kind == marks[j].command.kind
    ensures exists r :: i < r < j && !marks[r].On? && Recent(marks[..j], r)
              && (marks[r].Off? ==> marks[r].command == marks[i].command)
              && marks[j].mono >= marks[r].mono + Cooldown(u.limits, marks[j].command.kind)
  {
    hide Cooldown, Observed, Ticking, AllAllowed, Alternates, Recent;
    BlankRest(u.limits, clock);
    RunRest(CT.BLANK, u, [], clock, events, marks, m);
    assert [] + marks == marks;
    RestBetween(m, u.limits, marks, i, j);
  }

  lemma RestBetween(n: Node, l: Limits, marks: seq<Mark>, i: nat, j: nat)
    requires AllAllowed(l, marks) && Alternates(marks) && Durable(n, marks)
    requires i < j < |marks| && marks[i].On? && marks[j].On? && marks[i].command.generation.Epoch?
    requires marks[i].command.kind == marks[j].command.kind
    ensures exists r :: i < r < j && !marks[r].On? && Recent(marks[..j], r)
              && (marks[r].Off? ==> marks[r].command == marks[i].command)
              && marks[j].mono >= marks[r].mono + Cooldown(l, marks[j].command.kind)
  {
    hide Cooldown;
    assert Allowed(l, marks, j);
    var r := LastPowerUp(marks[..j]);
    if i < r {
      assert marks[r] == marks[..j][r];
      assert Recent(marks[..j], r);
      assert marks[r].durable;
    } else {
      var k := i + 1;
      assert marks[k - 1].On?;
      assert !marks[k].On?;
      assert k < j;
      assert marks[..j][k] == marks[k];
      assert Recent(marks[..j], k);
      assert marks[k].Off?;
    }
  }

  /** Without an epoch on record a start knows of no earlier movement: nothing has to rest. */
  lemma NoRecordNoRest(n: Node, u: Setup, boot: Controller.Boot, now: real, mono: real, kind: string, at: real)
    requires n.epochDisk == None
    ensures Rested(Restarted(n, u, boot, now, mono).guard, u.limits, kind, at)
  {
    hide Restarted;
    RestartedRest(n, u, boot, now, mono);
  }
}
