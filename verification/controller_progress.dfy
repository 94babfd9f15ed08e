/** That a controller acts and answers: which commands move an actuator and what becomes of the others. */
module ControllerProgress {
  import opened Wrappers
  import opened RecentCommands
  import opened SafetyGuards
  import opened CommandWindow
  import opened Controller
  import CT = ControllerTheorems

  /** The places a command window can still give: free rows, and rows that may be evicted. */
  function Places(m: Memory, capacity: nat, now: real): int {
    capacity - |m.entries| + CountEvictable(m.entries, Protected(m.pending), now)
  }

  lemma {:induction false} CountAppend(entries: seq<Row>, r: Row, protected: set<Option<string>>, now: real)
    requires !Evictable(r, protected, now)
    ensures CountEvictable(entries + [r], protected, now) == CountEvictable(entries, protected, now)
  {
    hide Evictable;
    if entries != [] {
      assert (entries + [r])[1..] == entries[1..] + [r];
      CountAppend(entries[1..], r, protected, now);
    }
  }

  lemma BeginsExactly(s: Store, p: Params, id: string, context: Context, now: real)
    requires Distinct(s.memory.entries)
    ensures var v := Begun(s, p, id, context, now, Committed).1;
            v == Done <==>
              && 1 <= |id| <= 256 && id !in Ids(s.memory.entries) && |s.memory.pending| < p.capacity
              && Places(s.memory, p.capacity, now) >= 1
  {
    hide Trim, CountEvictable, Ids, DropOldest, Distinct;
    var m, row := s.memory, NewRow(p, id, context);
    CountAppend(m.entries, row, Protected(m.pending), now);
    TrimIsOnePass(m.entries + [row], p.capacity, Protected(m.pending), now);
  }

  /** The source is the owner, or brings a newer epoch. */
  predicate MayCommand(g: Guard, c: Command) {
    match c.generation
    case Absent => g.owner == None || g.owner == Some(c.source)
    case Malformed => false
    case Epoch(value) => value > g.epoch || (value == g.epoch && (g.owner == None || g.owner == Some(c.source)))
  }

  /**
   * In every reachable state with working storage: an idle controller moves its actuator if and only if
   * the command is well formed, fresh, entitled, new, within its limits and rested, and the window has a
   * place for its row and for its result.
   */
  lemma MovesExactly(n: Node, u: Setup, issued: string -> real, c: Command, now: real, mono: real)
    requires CT.Inv(n, u, issued, now) && n.running == None && n.memory.Some?
    ensures var m := Delivered(n, u, c, now, mono, [Committed, Committed, Committed]);
            var w := n.memory.value;
            m.running == Some(c) <==>
              && !n.guard.fault
              && c.id.Some? && 1 <= |c.id.value| <= 256 && c.id.value !in Ids(w.entries)
              && c.kind.Some? && c.kind.value in u.limits.maxDuration
              && c.duration.Some? && 0.0 < c.duration.value <= u.limits.maxDuration[c.kind.value]
              && now - u.limits.ttl <= c.issued <= now + u.limits.ttl
              && MayCommand(n.guard, c)
              && (c.kind.value in n.guard.last && c.kind.value in u.limits.cooldown ==>
                    mono - n.guard.last[c.kind.value] >= u.limits.cooldown[c.kind.value])
              && (c.kind.value in n.guard.last && c.kind.value !in u.limits.cooldown ==>
                    mono >= n.guard.last[c.kind.value])
              && |w.pending| < u.capacity && Places(w, u.capacity, now) >= 1
  {
    hide CT.EpochInv, CT.GoodWindow, CT.GoodDisk, CT.NoRepeats, Ids, Begun, Places, QueueIn, Reported, ResultMessage;
    WindowDistinct(n, u, issued, now);
    if Refusal(n.guard, u.limits, c, now, mono) == None {
      EpochAccepted(n, c);
      BeginsExactly(Store(n.memory.value, n.commandDisk), ParamsOf(u), c.id.value, ContextOf(c), now);
      var (p, ok) := Fenced(n, c, Committed);
      assert ok && p.memory == n.memory && p.commandDisk == n.commandDisk;
    }
    StaysIdle(n, u, c, now, mono);
  }

  lemma WindowDistinct(n: Node, u: Setup, issued: string -> real, now: real)
    requires CT.Inv(n, u, issued, now) && n.memory.Some?
    ensures Distinct(n.memory.value.entries) && n.guard.executed == Ids(n.memory.value.entries)
  {
  }

  /** What passes the check is an epoch set_ownership accepts. */
  lemma EpochAccepted(n: Node, c: Command)
    requires !n.guard.fault && Current(n.guard, c) && Entitled(n.guard, c)
    ensures Fenced(n, c, Committed).1
  {
  }

  lemma StaysIdle(n: Node, u: Setup, c: Command, now: real, mono: real)
    requires Shut(n) && n.running == None
    ensures var (m, r) := Admitted(n, u, c, now, mono, Committed, Committed);
            && (r.Some? ==> Delivered(n, u, c, now, mono, [Committed, Committed, Committed]).running == None)
            && (r == None ==> m.running == Some(c))
  {
    hide Begun, Queued, Reported, ResultMessage;
  }

  // ---- answers -------------------------------------------------------------------------------------------

  /** The command was turned away, for a reason. */
  predicate Rejects(k: Identity, c: Command) {
    k.commandId == c.id && k.generation == c.generation && k.status == REJECTED && k.reason.Some?
  }

  /** What became of the command before: its outcome, or that its outcome is unknown. */
  predicate Repeats(k: Identity, m: Memory, c: Command) {
    exists i :: 0 <= i < |m.entries| && Some(m.entries[i].id) == c.id
      && k == match m.entries[i].result
              case Some(r) => Identity(r.commandId, r.generation, r.status, r.reason)
              case None => Identity(c.id, c.generation, UNKNOWN, Some(INTERRUPTED_EXECUTION))
  }

  lemma AnswerOf(m: Memory, capacity: nat, c: Command, reason: Reason)
    requires Sound(m, capacity)
    requires reason == DUPLICATE_COMMAND_ID ==> c.id.Some? && c.id.value in Ids(m.entries)
    ensures var k := IdentityOf(Reported(m, c, reason));
            if reason == DUPLICATE_COMMAND_ID then Repeats(k, m, c) else Rejects(k, c)
  {
    hide Sound, Backed;
    if reason == DUPLICATE_COMMAND_ID {
      var row :| row in m.entries && row.id == c.id.value;
      var i := IndexOf(m.entries, c.id);
      assert i < |m.entries|;
    }
  }

  lemma QueuedAnswer(n: Node, u: Setup, w: Wire, o: SaveOutcome)
    requires n.memory.Some? && Sound(n.memory.value, u.capacity) && Fits(n.memory.value, w)
    requires o == Committed && |n.memory.value.pending| < u.capacity
    ensures var m := QueueIn(n, u, w, o);
            m.memory.Some? && m.guard == n.guard && IdentityOf(w.result) in m.memory.value.pending
  {
    hide Sound, Upgraded;
  }

  /**
   * A command that does not move the actuator is answered, whatever happened to the saves before: it is
   * rejected for a reason, or its earlier outcome is reported again, unless the result window is full.
   */
  lemma RefusedIsAnswered(n: Node, u: Setup, issued: string -> real, c: Command, now: real, mono: real,
                          saves: seq<SaveOutcome>)
    requires CT.Inv(n, u, issued, now) && n.running == None && n.memory.Some? && |saves| == 3
    requires c.id.Some? ==> c.issued == issued(c.id.value)
    requires saves[2] == Committed && |n.memory.value.pending| < u.capacity
    ensures var m := Delivered(n, u, c, now, mono, saves);
            m.running == None ==>
              && m.memory.Some?
              && exists k :: k in m.memory.value.pending && (Rejects(k, c) || Repeats(k, n.memory.value, c))
  {
    hide CT.Inv, Admitted, ResultMessage, Reported, QueueIn;
    CT.InvShut(n, u, issued, now);
    var m := Delivered(n, u, c, now, mono, saves);
    var (p, r) := Admitted(n, u, c, now, mono, saves[0], saves[1]);
    AdmittedWindow(n, u, issued, c, now, mono, saves[0], saves[1]);
    if r.Some? {
      CT.AdmittedKeeps(n, u, issued, c, now, mono, saves[0], saves[1]);
      CT.InvWindow(p, u, issued, now);
      WindowDistinct(n, u, issued, now);
      Answered(p, u, issued, c, r.value, now);
      var k := IdentityOf(Reported(p.memory.value, c, r.value));
      assert Rejects(k, c) || Repeats(k, n.memory.value, c);
    }
  }

  lemma Answered(n: Node, u: Setup, issued: string -> real, c: Command, reason: Reason, now: real)
    requires CT.Inv(n, u, issued, now) && n.running == None && n.memory.Some?
    requires reason == DUPLICATE_COMMAND_ID ==> c.id.Some? && c.id.value in Ids(n.memory.value.entries)
    requires |n.memory.value.pending| < u.capacity
    ensures var m := Replied(n, u, c, reason, now, Committed);
            var k := IdentityOf(Reported(n.memory.value, c, reason));
            && m.memory.Some? && m.guard == n.guard && k in m.memory.value.pending
            && if reason == DUPLICATE_COMMAND_ID then Repeats(k, n.memory.value, c) else Rejects(k, c)
  {
    hide Sound, ResultMessage, Reported, QueueIn, Fits, Repeats, Rejects;
    var m := n.memory.value;
    CT.InvWindow(n, u, issued, now);
    AnswerOf(m, u.capacity, c, reason);
    CT.ReportedFits(m, u, issued, CT.PastOf(n, now), c, reason, now);
    var w := ResultMessage(m, Reported(m, c, reason), c.source, now);
    QueuedAnswer(n, u, w, Committed);
    ReportedIdentity(m, u.capacity, c, reason, now);
  }

  lemma ReportedIdentity(m: Memory, capacity: nat, c: Command, reason: Reason, now: real)
    requires Sound(m, capacity)
    ensures IdentityOf(ResultMessage(m, Reported(m, c, reason), c.source, now).result)
            == IdentityOf(Reported(m, c, reason))
  {
    hide Backed, Distinct, Reported;
    var r := Reported(m, c, reason);
    var i := IndexOf(m.entries, r.commandId);
  }

  /** A refused admission leaves the window as it was. */
  lemma AdmittedWindow(n: Node, u: Setup, issued: string -> real, c: Command, now: real, mono: real,
                       o1: SaveOutcome, o2: SaveOutcome)
    requires CT.Inv(n, u, issued, now) && Shut(n) && n.running == None && n.memory.Some?
    ensures var (m, r) := Admitted(n, u, c, now, mono, o1, o2);
            && (r.Some? ==> m.memory == n.memory && m.running == None)
            && (r == None ==> m.running == Some(c))
            && (r == Some(DUPLICATE_COMMAND_ID) ==> c.id.Some? && c.id.value in Ids(n.memory.value.entries))
  {
    hide Trim, Ids, CT.EpochInv, CT.GoodWindow, CT.GoodDisk, CT.NoRepeats;
  }

  /** A fresh and entitled retry of a completed command gets its original outcome again. */
  lemma RetryGetsOutcome(n: Node, u: Setup, issued: string -> real, c: Command, now: real, mono: real,
                         saves: seq<SaveOutcome>)
    requires CT.Inv(n, u, issued, now) && n.running == None && n.memory.Some? && |saves| == 3
    requires saves[2] == Committed && |n.memory.value.pending| < u.capacity && !n.guard.fault
    requires c.kind.Some? && c.kind.value in u.limits.maxDuration && c.id.Some? && c.id.value != ""
    requires now - u.limits.ttl <= c.issued <= now + u.limits.ttl && MayCommand(n.guard, c)
    requires c.id.value in Ids(n.memory.value.entries)
    ensures var m := Delivered(n, u, c, now, mono, saves);
            && m.running == None && m.memory.Some? && m.guard == n.guard && m.log == n.log
            && exists k :: k in m.memory.value.pending && Repeats(k, n.memory.value, c)
  {
    hide CT.Inv, ResultMessage, Reported, QueueIn, Ids, Repeats;
    WindowDistinct(n, u, issued, now);
    CT.InvShut(n, u, issued, now);
    assert Refusal(n.guard, u.limits, c, now, mono) == Some(DUPLICATE_COMMAND_ID);
    Answered(n, u, issued, c, DUPLICATE_COMMAND_ID, now);
    ReplyOnly(n, u, c, DUPLICATE_COMMAND_ID, now);
  }

  lemma ReplyOnly(n: Node, u: Setup, c: Command, reason: Reason, now: real)
    requires n.memory.Some? && n.running == None
    ensures var m := Replied(n, u, c, reason, now, Committed); m.log == n.log && m.running == None
  {
    hide Queued, Reported, ResultMessage;
  }

  // ---- confirmations, starts and old checkpoints -----------------------------------------------------------

  /** A confirmed result leaves the window, in memory and on disk, and nothing else changes. */
  lemma ConfirmedLeaves(n: Node, u: Setup, k: Identity)
    requires n.memory.Some? && k in n.memory.value.pending
    ensures var m := ResultAcked(n, u, k, Committed);
            && m.memory.Some? && m.memory.value.entries == n.memory.value.entries
            && (forall j :: j in m.memory.value.pending <==> j in n.memory.value.pending && j != k)
            && (forall j :: j in m.memory.value.pending ==> m.memory.value.pending[j] == n.memory.value.pending[j])
            && m.commandDisk == Some(Checkpoint(VERSION, u.capacity, m.memory.value)) && m.guard == n.guard
  {
  }

  /** Whatever the checkpoint holds: a window that is loaded has one row an id, and fits the capacity. */
  lemma LoadedIsSafe(d: Option<Checkpoint>, p: Params, readable: bool, now: real, o: SaveOutcome)
    ensures var m := Loaded(d, p, readable, now, o).0;
            m.Some? ==>
              && readable && o == Committed
              && (forall i, j :: 0 <= i < j < |m.value.entries| ==> m.value.entries[i].id != m.value.entries[j].id)
              && |m.value.entries| <= p.capacity && |m.value.pending| <= p.capacity
              && (forall i :: 0 <= i < |m.value.entries| ==> m.value.entries[i].retainUntil.Some?)
              && (forall k :: k in m.value.pending ==> IdentityOf(m.value.pending[k].result) == k)
              && (d.Some? ==> m.value.pending == d.value.memory.pending)
  {
    hide Trim, Migrated, RowsValid;
    if readable && d.Some? && Validates(d.value) {
      var saved := d.value.memory;
      var rows := AllMigrated(saved.entries, now, p.retention);
      MigratedIds(saved.entries, now, p.retention);
      LoadedRows(rows, p.capacity, Protected(saved.pending), now);
    } else if d == None {
      LoadedRows([], p.capacity, Protected(map[]), now);
    }
  }

  lemma MigratedIds(entries: seq<Row>, now: real, retention: real)
    requires Distinct(entries)
    ensures Distinct(AllMigrated(entries, now, retention))
    ensures forall i :: 0 <= i < |entries| ==> AllMigrated(entries, now, retention)[i].retainUntil.Some?
  {
  }

  lemma LoadedRows(rows: seq<Row>, capacity: nat, protected: set<Option<string>>, now: real)
    requires Distinct(rows) && forall i :: 0 <= i < |rows| ==> rows[i].retainUntil.Some?
    ensures var t := Trim(rows, capacity, protected, now);
            t.Some? ==>
              && Distinct(t.value) && |t.value| <= capacity
              && forall i :: 0 <= i < |t.value| ==> t.value[i].retainUntil.Some?
  {
    hide Trim, Distinct, Evictable;
    var t := Trim(rows, capacity, protected, now);
    if t.Some? {
      TrimKeeps(rows, capacity, protected, now);
      forall i | 0 <= i < |t.value| ensures t.value[i].retainUntil.Some? {
        assert t.value[i] in t.value;
      }
    }
  }

  /** A row of an old checkpoint, of which no deadline is known, is not evicted for a full time to live. */
  lemma LegacyRowKept(r: Row, retention: real, started: real, now: real, protected: set<Option<string>>)
    requires r.retainUntil == None && retention > 0.0 && now <= started + retention
    ensures !Evictable(Migrated(r, started, retention), protected, now)
  {
  }

  /** Whatever the record holds: a guard that starts has an epoch and, if any, a known owner, or refuses. */
  lemma GuardStartsSafe(l: Limits, d: Option<EpochRecord>, readable: bool, mono: real)
    ensures var g := Restored(l, d, readable, mono);
            && (!readable ==> g.fault)
            && (!g.fault ==>
                 && g.epoch >= 1 && (g.owner.Some? ==> g.owner.value in {"A1", "A2"})
                 && (d.Some? ==> g.epoch == d.value.epoch && g.owner == d.value.owner))
  {
  }

  // ---- interrupted commands ----------------------------------------------------------------------------------

  /** The outcome of an interrupted command is reported to be unknown. */
  predicate ReportsUnknown(m: Memory, r: Row) {
    exists k :: k in m.pending && k.commandId == Some(r.id) && k.status == UNKNOWN
      && k.reason == Some(INTERRUPTED_EXECUTION)
  }

  lemma {:induction false} RecoveryReports(n: Node, u: Setup, rows: seq<Row>, now: real, saves: seq<SaveOutcome>)
    requires n.memory.Some? && Sound(n.memory.value, u.capacity) && |saves| == |rows|
    requires !Recovered(n, u, rows, now, saves).guard.fault
    ensures var m := Recovered(n, u, rows, now, saves).memory;
            && m.Some? && n.memory.value.pending.Keys <= m.value.pending.Keys
            && forall r :: r in rows && Unreported(r, n.memory.value.pending) ==> ReportsUnknown(m.value, r)
    decreases |rows|
  {
    hide ResultMessage, Unreported, Sound, Upgraded, ReportsUnknown;
    if rows != [] {
      var m := n.memory.value;
      if !Unreported(rows[0], m.pending) {
        RecoveryReports(n, u, rows[1..], now, saves[1..]);
      } else {
        CT.InterruptedMessage(m, u.capacity, rows[0], now);
        ResultMessageFits(m, u.capacity, Interrupted(rows[0]), rows[0].context.value.source, now);
        var w := ResultMessage(m, Interrupted(rows[0]), rows[0].context.value.source, now);
        var (s, v) := Queued(Store(m, n.commandDisk), ParamsOf(u), w, saves[0]);
        assert v == Done;
        var next := WithStore(n, s);
        QueuedSound(m, u.capacity, w);
        RecoveryReports(next, u, rows[1..], now, saves[1..]);
        var last := Recovered(next, u, rows[1..], now, saves[1..]).memory.value;
        assert IdentityOf(w.result) in next.memory.value.pending;
        UnknownReported(last, rows[0], w);
        forall r | r in rows[1..] && Unreported(r, m.pending) ensures ReportsUnknown(last, r) {
          if r.id == rows[0].id {
            UnknownReported(last, r, w);
          } else {
            CT.StaysUnreported(r, m.pending, w);
          }
        }
      }
    }
  }

  lemma UnknownReported(m: Memory, r: Row, w: Wire)
    requires IdentityOf(w.result) in m.pending && w.result.commandId == Some(r.id)
    requires w.result.status == UNKNOWN && w.result.reason == Some(INTERRUPTED_EXECUTION)
    ensures ReportsUnknown(m, r)
  {
  }

  /**
   * A start that leaves the controller open has reported every command that was under way when the power
   * was lost, and for which no result waits, as interrupted with an unknown outcome.
   */
  lemma RestartReports(n: Node, u: Setup, issued: string -> real, clock: real, boot: Boot, now: real, mono: real)
    requires CT.Inv(n, u, issued, clock) && !Restarted(n, u, boot, now, mono).guard.fault
    ensures var m := Restarted(n, u, boot, now, mono).memory;
            && m.Some?
            && (n.commandDisk.Some? ==>
                 var saved := n.commandDisk.value.memory;
                 forall r :: r in saved.entries && Unreported(r, saved.pending) ==> ReportsUnknown(m.value, r))
  {
    hide CT.GoodWindow, Unreported, Recovered, Loaded, CT.EpochInv, CT.NoRepeats, ReportsUnknown;
    CT.LoadedGood(n, u, issued, clock, boot.commandsReadable, now, boot.save);
    var r := Reloaded(n, u, boot, now, mono);
    CT.ReloadKeeps(n, u, issued, clock, boot, now, mono);
    if r.memory.Some? {
      CT.InvWindow(r, u, issued, clock);
      RecoveryReports(r, u, r.memory.value.entries, now, Padded(boot.recovery, |r.memory.value.entries|));
    }
  }
}
