/** At-most-once actuation, the epoch fence and the fate of outcomes, over every run of a controller. */
module ControllerTheorems {
  import opened Wrappers
  import opened RecentCommands
  import opened SafetyGuards
  import opened CommandWindow
  import opened Controller

  function LoggedIds(log: seq<Admission>): set<string> {
    set a | a in log :: a.id
  }

  ghost predicate NoRepeats(log: seq<Admission>) {
    forall i, j :: 0 <= i < j < |log| ==> log[i].id != log[j].id
  }

  function PastOf(n: Node, clock: real): Past {
    Past(LoggedIds(n.log), n.confirmed, clock)
  }

  ghost predicate GoodWindow(m: Memory, u: Setup, issued: string -> real, p: Past) {
    Good(m, u.capacity, u.limits.ttl, issued, p)
  }

  ghost predicate GoodDisk(d: Option<Checkpoint>, u: Setup, issued: string -> real, p: Past) {
    if d.Some? then
      d.value.version == VERSION && d.value.capacity == u.capacity && GoodWindow(d.value.memory, u, issued, p)
    else p.ids == {}
  }

  // ---- epochs --------------------------------------------------------------------------------------

  /** The guard in memory agrees with the durable epoch as long as it may act. */
  ghost predicate Matches(g: Guard, d: Option<EpochRecord>) {
    !g.fault ==>
      if d.Some? then g.epoch == d.value.epoch && g.owner == d.value.owner else g.epoch == INITIAL_EPOCH
  }

  /** Durable epochs start at one and belong to a gateway. */
  ghost predicate Proper(d: Option<EpochRecord>) {
    d.Some? ==> d.value.epoch >= INITIAL_EPOCH && d.value.owner.Some?
  }

  ghost predicate Covers(d: Option<EpochRecord>, a: Admission) {
    a.generation.Epoch? ==>
      && d.Some? && a.generation.value <= d.value.epoch
      && (a.generation.value == d.value.epoch ==> d.value.owner == Some(a.source))
  }

  ghost predicate InOrder(a: Admission, b: Admission) {
    a.generation.Epoch? && b.generation.Epoch? ==>
      a.generation.value <= b.generation.value && (a.generation == b.generation ==> a.source == b.source)
  }

  /** Admitted epochs never decrease, one gateway per epoch, and the durable epoch covers them all. */
  ghost predicate Fenced(log: seq<Admission>, d: Option<EpochRecord>) {
    && (forall i, j :: 0 <= i < j < |log| ==> InOrder(log[i], log[j]))
    && (forall i :: 0 <= i < |log| ==> Covers(d, log[i]))
  }

  ghost predicate NotBefore(d: Option<EpochRecord>, e: Option<EpochRecord>) {
    d.Some? ==> e.Some? && d.value.epoch <= e.value.epoch && (d.value.epoch == e.value.epoch ==> d == e)
  }

  ghost predicate EpochInv(n: Node) {
    && Matches(n.guard, n.epochDisk) && Proper(n.epochDisk) && Fenced(n.log, n.epochDisk)
    && (n.running.Some? && n.running.value.id.Some? && !n.guard.fault ==>
        Covers(Some(EpochRecord(n.guard.epoch, n.guard.owner)), Log(n.running.value)))
  }

  lemma OwnedAdvances(n: Node, owner: Name, generation: Generation, o: SaveOutcome)
    requires EpochInv(n)
    ensures var (m, ok) := WithOwnership(n, owner, generation, o);
            && EpochInv(m) && NotBefore(n.epochDisk, m.epochDisk)
            && (ok ==>
                 !m.guard.fault && generation.Epoch? && m.epochDisk == Some(EpochRecord(generation.value, Some(owner))))
            && (n.guard.fault ==> m.guard.fault)
  {
    var (m, ok) := WithOwnership(n, owner, generation, o);
    assert NotBefore(n.epochDisk, m.epochDisk);
    FencedAdvances(n.log, n.epochDisk, m.epochDisk);
  }

  lemma FencedAdvances(log: seq<Admission>, d: Option<EpochRecord>, e: Option<EpochRecord>)
    requires Fenced(log, d) && NotBefore(d, e)
    ensures Fenced(log, e)
  {
    hide InOrder;
  }

  lemma FencedGrows(log: seq<Admission>, d: Option<EpochRecord>, a: Admission)
    requires Fenced(log, d)
    requires a.generation != Malformed
    requires a.generation.Epoch? ==> d == Some(EpochRecord(a.generation.value, Some(a.source)))
    ensures Fenced(log + [a], d)
  {
  }

  // ---- the invariant of a run ----------------------------------------------------------------------

  ghost predicate RunningInv(n: Node, u: Setup) {
    n.running.Some? ==>
      && n.memory.Some? && n.running.value.id.Some? && n.running.value.kind.Some?
      && UnderWay(n.memory.value, u.capacity, IndexOf(n.memory.value.entries, n.running.value.id))
  }

  ghost predicate WindowInv(n: Node, u: Setup, issued: string -> real, clock: real) {
    && (n.memory.Some? ==> GoodWindow(n.memory.value, u, issued, PastOf(n, clock)))
    && GoodDisk(n.commandDisk, u, issued, PastOf(n, clock))
    && (n.memory.Some? ==> n.guard.executed == Ids(n.memory.value.entries))
    && NoRepeats(n.log)
  }

  ghost predicate Inv(n: Node, u: Setup, issued: string -> real, clock: real) {
    && u.limits.ttl > 0.0 && 1 <= u.capacity <= 1024 && clock >= 0.0
    && Shut(n) && RunningInv(n, u) && EpochInv(n) && WindowInv(n, u, issued, clock)
  }

  lemma InvReady(n: Node, u: Setup, issued: string -> real, clock: real)
    requires Inv(n, u, issued, clock)
    ensures Ready(n)
  {
  }

  lemma InvLater(n: Node, u: Setup, issued: string -> real, clock: real, now: real)
    requires Inv(n, u, issued, clock) && clock <= now
    ensures Inv(n, u, issued, now)
  {
    hide EpochInv, RunningInv, Good;
    DiskLater(n.commandDisk, u, issued, PastOf(n, clock), PastOf(n, now));
    if n.memory.Some? {
      GoodLater(n.memory.value, u.capacity, u.limits.ttl, issued, PastOf(n, clock), PastOf(n, now));
    }
  }

  lemma DiskLater(d: Option<Checkpoint>, u: Setup, issued: string -> real, p: Past, q: Past)
    requires GoodDisk(d, u, issued, p) && q.ids == p.ids && p.confirmed <= q.confirmed && p.clock <= q.clock
    ensures GoodDisk(d, u, issued, q)
  {
    hide Good;
    if d.Some? {
      GoodLater(d.value.memory, u.capacity, u.limits.ttl, issued, p, q);
    }
  }

  /** A save leaves good windows behind, whichever way it ends. */
  lemma SaveGood(s: Store, u: Setup, next: Memory, o: SaveOutcome, issued: string -> real, p: Past)
    requires GoodWindow(s.memory, u, issued, p) && GoodDisk(s.disk, u, issued, p) && GoodWindow(next, u, issued, p)
    ensures var r := Save(s, ParamsOf(u), next, o).0;
            GoodWindow(r.memory, u, issued, p) && GoodDisk(r.disk, u, issued, p)
  {
    hide Good;
  }

  // ---- delivery ------------------------------------------------------------------------------------

  lemma NewLog(log: seq<Admission>, a: Admission)
    ensures LoggedIds(log + [a]) == LoggedIds(log) + {a.id}
    ensures NoRepeats(log) && a.id !in LoggedIds(log) ==> NoRepeats(log + [a])
  {
    var t := log + [a];
    forall x | x in LoggedIds(log) + {a.id} ensures x in LoggedIds(t) {
      if x in LoggedIds(log) {
        var b :| b in log && b.id == x;
        assert b in t;
      } else {
        assert a in t;
      }
    }
    forall i | 0 <= i < |log| ensures log[i].id in LoggedIds(log) {
      assert log[i] in log;
    }
  }

  /** The central step: an id the window no longer knows is out of time, so it cannot be admitted again. */
  lemma NeverAgain(n: Node, u: Setup, issued: string -> real, now: real, c: Command)
    requires WindowInv(n, u, issued, now) && n.memory.Some? && c.id.Some? && c.issued == issued(c.id.value)
    requires InTime(u.limits, c, now) && c.id.value !in n.guard.executed
    ensures c.id.value !in LoggedIds(n.log)
  {
    hide Sound, Confirmed;
  }

  lemma StartedWindow(n: Node, u: Setup, issued: string -> real, now: real, c: Command, o: SaveOutcome)
    requires WindowInv(n, u, issued, now) && n.memory.Some? && u.limits.ttl > 0.0 && now >= 0.0
    requires c.id.Some? && c.issued == issued(c.id.value) && InTime(u.limits, c, now) && c.id.value !in n.guard.executed
    ensures var (m, r) := Started(n, u, c, now, o);
            && WindowInv(m, u, issued, now)
            && (r == None ==> UnderWay(m.memory.value, u.capacity, IndexOf(m.memory.value.entries, c.id)))
  {
    hide Good, Trim, InTime;
    var mem, p := n.memory.value, ParamsOf(u);
    var id := c.id.value;
    var row := NewRow(p, id, ContextOf(c));
    if 1 <= |id| <= 256 && |mem.pending| < p.capacity {
      var kept := Trim(mem.entries + [row], p.capacity, Protected(mem.pending), now);
      if kept.Some? {
        RowFits(u, c, now);
        NeverAgain(n, u, issued, now, c);
        BegunGood(mem, u.capacity, u.limits.ttl, issued, PastOf(n, now), row, kept.value, now);
        StartedDone(n, u, issued, now, c, kept.value, row, o);
      }
    }
  }

  lemma RowFits(u: Setup, c: Command, now: real)
    requires c.id.Some? && 1 <= |c.id.value| <= 256 && InTime(u.limits, c, now) && now >= 0.0 && u.limits.ttl > 0.0
    ensures var row := NewRow(ParamsOf(u), c.id.value, ContextOf(c));
            RowValid(row) && row.state == INTENT && row.id == c.id.value
            && row.retainUntil == Some(c.issued + u.limits.ttl)
  {
  }

  lemma StartedDone(n: Node, u: Setup, issued: string -> real, now: real, c: Command, kept: seq<Row>, row: Row,
                    o: SaveOutcome)
    requires WindowInv(n, u, issued, now) && n.memory.Some? && c.id.Some? && c.id.value !in n.guard.executed
    requires c.id.value !in LoggedIds(n.log)
    requires 1 <= |c.id.value| <= 256 && |n.memory.value.pending| < u.capacity
    requires row == NewRow(ParamsOf(u), c.id.value, ContextOf(c)) && row in kept
    requires Trim(n.memory.value.entries + [row], u.capacity, Protected(n.memory.value.pending), now) == Some(kept)
    requires GoodWindow(Memory(kept, n.memory.value.pending), u, issued,
                        Past(LoggedIds(n.log) + {c.id.value}, n.confirmed, now))
    ensures var (m, r) := Started(n, u, c, now, o);
            && WindowInv(m, u, issued, now)
            && (r == None ==> UnderWay(m.memory.value, u.capacity, IndexOf(m.memory.value.entries, c.id)))
  {
    hide Good, Trim;
    var next := Memory(kept, n.memory.value.pending);
    var q := Past(LoggedIds(n.log) + {c.id.value}, n.confirmed, now);
    NewLog(n.log, Log(c));
    GoodLater(next, u.capacity, u.limits.ttl, issued, q, PastOf(n, now));
    GoodDistinct(next, u, issued, q);
    IndexFound(kept, row);
    KeptIds(n.memory.value, u, issued, PastOf(n, now), row, kept, now);
  }

  lemma GoodDistinct(m: Memory, u: Setup, issued: string -> real, p: Past)
    requires GoodWindow(m, u, issued, p)
    ensures Distinct(m.entries)
  {
  }

  lemma KeptIds(m: Memory, u: Setup, issued: string -> real, p: Past, row: Row, kept: seq<Row>, now: real)
    requires GoodWindow(m, u, issued, p) && row.id !in Ids(m.entries) && row in kept
    requires Trim(m.entries + [row], u.capacity, Protected(m.pending), now) == Some(kept)
    ensures Ids(m.entries) - (Ids(m.entries) - Ids(kept)) + {row.id} == Ids(kept)
  {
    hide Good, Trim, Evictable;
    GoodDistinct(m, u, issued, p);
    AppendDistinct(m.entries, row);
    TrimKeeps(m.entries + [row], u.capacity, Protected(m.pending), now);
  }

  lemma StartedEpochs(n: Node, u: Setup, now: real, c: Command, o: SaveOutcome)
    requires EpochInv(n) && n.running == None && n.memory.Some? && c.id.Some? && c.generation != Malformed
    requires c.generation.Epoch? ==> n.epochDisk == Some(EpochRecord(c.generation.value, Some(c.source)))
    ensures EpochInv(Started(n, u, c, now, o).0)
  {
    hide Begun, InOrder;
    FencedGrows(n.log, n.epochDisk, Log(c));
  }

  lemma AdmittedKeeps(n: Node, u: Setup, issued: string -> real, c: Command, now: real, mono: real,
                      o1: SaveOutcome, o2: SaveOutcome)
    requires Inv(n, u, issued, now) && n.running == None
    requires c.id.Some? ==> c.issued == issued(c.id.value)
    ensures var (m, r) := Admitted(n, u, c, now, mono, o1, o2);
            Inv(m, u, issued, now) && (r.Some? ==> m.running == None)
  {
    hide GoodWindow, Started, EpochInv, Accepts;
    if Refusal(n.guard, u.limits, c, now, mono) == None {
      OwnershipKeeps(n, u, issued, now, c.source, c.generation, o1);
      OwnershipStands(n, c.source, c.generation, o1);
      var (m, ok) := Controller.Fenced(n, c, o1);
      if ok {
        StartedWindow(m, u, issued, now, c, o2);
        StartedEpochs(m, u, now, c, o2);
        StartedShape(m, u, now, c, o2);
      }
    }
  }

  lemma StartedShape(n: Node, u: Setup, now: real, c: Command, o: SaveOutcome)
    requires n.memory.Some? && c.id.Some? && n.running == None
    ensures var (m, r) := Started(n, u, c, now, o);
            m.memory.Some? && m.running == (if r == None then Some(c) else None)
  {
    hide Begun;
  }

  lemma OwnershipStands(n: Node, owner: Name, generation: Generation, o: SaveOutcome)
    requires EpochInv(n)
    ensures var (m, ok) := WithOwnership(n, owner, generation, o);
            ok ==> generation.Epoch? && m.epochDisk == Some(EpochRecord(generation.value, Some(owner)))
  {
    OwnedAdvances(n, owner, generation, o);
  }

  lemma OwnershipKeeps(n: Node, u: Setup, issued: string -> real, clock: real, owner: Name, generation: Generation,
                       o: SaveOutcome)
    requires Inv(n, u, issued, clock)
    ensures Inv(WithOwnership(n, owner, generation, o).0, u, issued, clock)
    ensures n.memory == WithOwnership(n, owner, generation, o).0.memory
    ensures n.running == WithOwnership(n, owner, generation, o).0.running
    ensures n.guard.executed == WithOwnership(n, owner, generation, o).0.guard.executed
  {
    hide GoodWindow, EpochInv, GoodDisk, NoRepeats;
    OwnedAdvances(n, owner, generation, o);
  }

  // ---- results ---------------------------------------------------------------------------------------

  lemma QueueKeeps(n: Node, u: Setup, issued: string -> real, clock: real, w: Wire, o: SaveOutcome)
    requires Inv(n, u, issued, clock) && n.memory.Some? && n.running == None && Fits(n.memory.value, w)
    ensures Inv(QueueIn(n, u, w, o), u, issued, clock) && QueueIn(n, u, w, o).running == None
  {
    hide Good, Fits, Upgraded, EpochInv, NoRepeats;
    var m, p := n.memory.value, PastOf(n, clock);
    QueuedGood(m, u.capacity, u.limits.ttl, issued, p, w);
    var (pending, v) := WithResult(m.pending, ParamsOf(u), w);
    if v == Done {
      SaveGood(Store(m, n.commandDisk), u, Memory(Upgraded(m.entries, w), pending), o, issued, p);
      GoodDistinct(m, u, issued, p);
      UpgradedIds(m, w);
    }
    QueueEpochs(n, u, w, o);
  }

  lemma UpgradedIds(m: Memory, w: Wire)
    requires Distinct(m.entries)
    ensures Ids(Upgraded(m.entries, w)) == Ids(m.entries)
  {
    hide Ids;
    var i := IndexOf(m.entries, w.result.commandId);
    var t := Upgraded(m.entries, w);
    if t != m.entries {
      ReplacedRows(m.entries, i, t[i]);
    }
  }

  lemma QueueEpochs(n: Node, u: Setup, w: Wire, o: SaveOutcome)
    requires EpochInv(n) && n.memory.Some? && n.running == None
    ensures EpochInv(QueueIn(n, u, w, o)) && QueueIn(n, u, w, o).running == None
  {
    hide Queued, RecentCommands.Queued, SafetyGuards.Owned, Controller.Fenced;
  }

  lemma ReplyKeeps(n: Node, u: Setup, issued: string -> real, clock: real, c: Command, reason: Reason, stamp: real,
                   o: SaveOutcome)
    requires Inv(n, u, issued, clock) && n.running == None
    ensures Inv(Replied(n, u, c, reason, stamp, o), u, issued, clock)
  {
    hide EpochInv, Stamped, Reporting, Remembered, Fits, QueueIn, NoRepeats;
    if n.memory.Some? {
      var m := n.memory.value;
      ReportedFits(m, u, issued, PastOf(n, clock), c, reason, stamp);
      QueueKeeps(n, u, issued, clock, ResultMessage(m, Reported(m, c, reason), c.source, stamp), o);
    }
  }

  lemma ReportedFits(m: Memory, u: Setup, issued: string -> real, p: Past, c: Command, reason: Reason, stamp: real)
    requires GoodWindow(m, u, issued, p)
    ensures Fits(m, ResultMessage(m, Reported(m, c, reason), c.source, stamp))
  {
    hide Backed, Distinct, PendingValid, Fits, ResultMessage;
    var i := IndexOf(m.entries, c.id);
    if i < |m.entries| {
      assert RowSound(m.entries[i], m.pending);
    }
    ResultMessageFits(m, u.capacity, Reported(m, c, reason), c.source, stamp);
  }

  lemma DeliverKeeps(n: Node, u: Setup, issued: string -> real, c: Command, now: real, mono: real,
                     saves: seq<SaveOutcome>)
    requires Inv(n, u, issued, now) && n.running == None && |saves| == 3
    requires c.id.Some? ==> c.issued == issued(c.id.value)
    ensures Inv(Delivered(n, u, c, now, mono, saves), u, issued, now)
  {
    hide Inv, Admitted, Replied;
    InvShut(n, u, issued, now);
    AdmittedKeeps(n, u, issued, c, now, mono, saves[0], saves[1]);
    var (m, r) := Admitted(n, u, c, now, mono, saves[0], saves[1]);
    if r.Some? {
      ReplyKeeps(m, u, issued, now, c, r.value, now, saves[2]);
    }
  }

  lemma InvShut(n: Node, u: Setup, issued: string -> real, clock: real)
    requires Inv(n, u, issued, clock)
    ensures Shut(n) && RunningInv(n, u)
  {
  }

  // ---- completion ----------------------------------------------------------------------------------

  /**
   * The outcome of an admitted command always finds its row and its reserved place: only the save
   * itself can fail.
   */
  lemma CompletionNeverRefused(n: Node, u: Setup, issued: string -> real, clock: real, now: real, o: SaveOutcome)
    requires Inv(n, u, issued, clock) && n.running.Some?
    ensures var c := n.running.value;
            n.memory.Some? && c.id.Some? && (Completed(n, u, c, now, o).1 == if o == Committed then Done else Broken)
  {
    hide Good, Outcome, EpochInv;
    var c, m := n.running.value, n.memory.value;
    var i := IndexOf(m.entries, c.id);
    FinishedGood(m, u.capacity, u.limits.ttl, issued, PastOf(n, clock), i, ExecutedResult(c), c.source, now);
  }

  lemma CompletedKeeps(n: Node, u: Setup, issued: string -> real, clock: real, c: Command, now: real, o: SaveOutcome)
    requires Inv(n, u, issued, clock) && n.running == None && n.memory.Some? && c.id.Some?
    requires UnderWay(n.memory.value, u.capacity, IndexOf(n.memory.value.entries, c.id))
    ensures var (m, v) := Completed(n, u, c, now, o);
            && Inv(m, u, issued, clock) && m.running == None && m.memory.Some?
            && (v == Done ==> HasOutcome(m.memory.value, ExecutedResult(c)))
  {
    hide Good, EpochInv, NoRepeats, ResultMessage;
    var m, p := n.memory.value, PastOf(n, clock);
    var i := IndexOf(m.entries, c.id);
    var w := ResultMessage(m, ExecutedResult(c), c.source, now);
    FinishedGood(m, u.capacity, u.limits.ttl, issued, p, i, ExecutedResult(c), c.source, now);
    var next := Memory(Outcome(m.entries, i, ExecutedResult(c), w), m.pending[IdentityOf(ExecutedResult(c)) := w]);
    SaveGood(Store(m, n.commandDisk), u, next, o, issued, p);
    SameIds(m.entries, i, next.entries[i]);
    assert next.entries[i] in next.entries;
    CompletedEpochs(n, u, c, now, o);
  }

  lemma CompletedEpochs(n: Node, u: Setup, c: Command, now: real, o: SaveOutcome)
    requires EpochInv(n) && n.running == None && n.memory.Some? && c.id.Some?
    ensures EpochInv(Completed(n, u, c, now, o).0)
  {
    hide Finished, ResultMessage;
  }

  ghost predicate HasOutcome(m: Memory, r: Result) {
    exists row :: row in m.entries && row.state == COMPLETED && Some(row.id) == r.commandId && row.result == Some(r)
  }

  /** commit leaves the fence of an epoch-bearing command as set_ownership put it. */
  lemma RecordedKeeps(n: Node, u: Setup, issued: string -> real, clock: real, mono: real)
    requires Inv(n, u, issued, clock) && n.running.Some?
    ensures RunningInv(n, u) && n.running.value.id.Some? && n.running.value.kind.Some?
    ensures var c := n.running.value;
            var g := Recorded(n.guard, c.id.value, c.kind.value, c.generation, c.source, mono);
            && Inv(n.(guard := g, running := None), u, issued, clock)
            && (c.generation.Epoch? && !n.guard.fault ==> g.epoch == n.guard.epoch && g.owner == n.guard.owner)
  {
    hide Good, NoRepeats, InOrder;
    RunningListed(n, u);
  }

  lemma RunningListed(n: Node, u: Setup)
    requires RunningInv(n, u) && n.running.Some?
    ensures n.memory.Some? && n.running.value.id.Some? && n.running.value.id.value in Ids(n.memory.value.entries)
  {
    var m := n.memory.value;
    assert m.entries[IndexOf(m.entries, n.running.value.id)] in m.entries;
  }

  lemma FinishKeeps(n: Node, u: Setup, issued: string -> real, now: real, mono: real, saves: seq<SaveOutcome>)
    requires Inv(n, u, issued, now) && n.running.Some? && |saves| == 2 && Ready(n)
    ensures Inv(Ended(n, u, n.running.value, now, mono, saves), u, issued, now)
  {
    hide Inv, Recorded, Completed, QueueIn, ResultMessage, UnderWay;
    InvShut(n, u, issued, now);
    var c := n.running.value;
    RecordedKeeps(n, u, issued, now, mono);
    var g := Recorded(n.guard, c.id.value, c.kind.value, c.generation, c.source, mono);
    var started := n.(guard := g, running := None);
    CompletedKeeps(started, u, issued, now, c, now, saves[0]);
    var (m, v) := Completed(started, u, c, now, saves[0]);
    var result := if v == Done then ExecutedResult(c)
                  else ExecutedResult(c).(status := UNKNOWN, reason := Some(STATE_UNAVAILABLE));
    InvWindow(m, u, issued, now);
    ResultMessageFits(m.memory.value, u.capacity, result, c.source, now);
    QueueKeeps(m, u, issued, now, ResultMessage(m.memory.value, result, c.source, now), saves[1]);
  }

  lemma InvWindow(n: Node, u: Setup, issued: string -> real, clock: real)
    requires Inv(n, u, issued, clock) && n.memory.Some?
    ensures Sound(n.memory.value, u.capacity)
  {
    hide Sound;
  }

  // ---- acknowledgement and restart -------------------------------------------------------------------

  lemma AckKeeps(n: Node, u: Setup, issued: string -> real, clock: real, k: Identity, o: SaveOutcome)
    requires Inv(n, u, issued, clock)
    ensures Inv(ResultAcked(n, u, k, o), u, issued, clock)
  {
    hide Good, EpochInv, NoRepeats;
    if n.memory.Some? && k in n.memory.value.pending {
      var m, p := n.memory.value, PastOf(n, clock);
      var q := p.(confirmed := p.confirmed + {k});
      var next := m.(pending := m.pending - {k});
      AckedGood(m, u.capacity, u.limits.ttl, issued, p, k);
      GoodLater(m, u.capacity, u.limits.ttl, issued, p, q);
      DiskLater(n.commandDisk, u, issued, p, q);
      SaveGood(Store(m, n.commandDisk), u, next, o, issued, q);
      SmallerMap(m.pending, k);
    }
    AckEpochs(n, u, k, o);
  }

  lemma AckEpochs(n: Node, u: Setup, k: Identity, o: SaveOutcome)
    requires EpochInv(n)
    ensures EpochInv(ResultAcked(n, u, k, o))
  {
    hide Acknowledged;
  }

  lemma LoadedGood(n: Node, u: Setup, issued: string -> real, clock: real, readable: bool, now: real, o: SaveOutcome)
    requires GoodDisk(n.commandDisk, u, issued, PastOf(n, clock)) && 1 <= u.capacity <= 1024
    ensures var (m, d) := Loaded(n.commandDisk, ParamsOf(u), readable, now, o);
            && GoodDisk(d, u, issued, PastOf(n, clock))
            && (m.Some? ==> GoodWindow(m.value, u, issued, PastOf(n, clock)))
            && (m.Some? <==> readable && o == Committed)
            && (m.Some? && n.commandDisk.Some? ==> m == Some(n.commandDisk.value.memory))
  {
    hide Good, Validates;
    var p := PastOf(n, clock);
    if n.commandDisk.Some? {
      WindowValidates(n.commandDisk.value.memory, u, issued, p);
      NothingToMigrate(n.commandDisk.value.memory, u, issued, p, now);
    } else {
      EmptyGood(u.capacity, u.limits.ttl, issued, p);
    }
  }

  lemma NothingToMigrate(m: Memory, u: Setup, issued: string -> real, p: Past, now: real)
    requires GoodWindow(m, u, issued, p)
    ensures AllMigrated(m.entries, now, u.limits.ttl) == m.entries
  {
    hide Sound, Reporting, Remembered;
    forall i | 0 <= i < |m.entries| ensures Migrated(m.entries[i], now, u.limits.ttl) == m.entries[i] {
      assert m.entries[i] in m.entries;
    }
  }

  lemma WindowValidates(m: Memory, u: Setup, issued: string -> real, p: Past)
    requires GoodWindow(m, u, issued, p)
    ensures Validates(Checkpoint(VERSION, u.capacity, m)) && |m.entries| <= u.capacity && |m.pending| <= u.capacity
  {
    SoundValidates(m, u.capacity);
  }

  lemma ReloadKeeps(n: Node, u: Setup, issued: string -> real, clock: real, boot: Boot, now: real, mono: real)
    requires Inv(n, u, issued, clock)
    ensures Inv(Reloaded(n, u, boot, now, mono), u, issued, clock)
    ensures Reloaded(n, u, boot, now, mono).running == None
  {
    hide Good, NoRepeats, InOrder, Covers;
    LoadedGood(n, u, issued, clock, boot.commandsReadable, now, boot.save);
  }

  lemma {:induction false} RecoveryKeeps(n: Node, u: Setup, issued: string -> real, clock: real, rows: seq<Row>,
                                         now: real, saves: seq<SaveOutcome>)
    requires Inv(n, u, issued, clock) && n.running == None && n.memory.Some? && |saves| == |rows|
    ensures Inv(Recovered(n, u, rows, now, saves), u, issued, clock)
    decreases |rows|
  {
    hide Inv, ResultMessage, Unreported, Queued;
    if rows != [] {
      var m := n.memory.value;
      if !Unreported(rows[0], m.pending) {
        RecoveryKeeps(n, u, issued, clock, rows[1..], now, saves[1..]);
      } else {
        RecoveryStep(n, u, issued, clock, rows[0], now, saves[0]);
        var w := ResultMessage(m, Interrupted(rows[0]), rows[0].context.value.source, now);
        var (s, v) := Queued(Store(m, n.commandDisk), ParamsOf(u), w, saves[0]);
        if v == Done {
          RecoveryKeeps(WithStore(n, s), u, issued, clock, rows[1..], now, saves[1..]);
        }
      }
    }
  }

  lemma RecoveryStep(n: Node, u: Setup, issued: string -> real, clock: real, r: Row, now: real, o: SaveOutcome)
    requires Inv(n, u, issued, clock) && n.running == None && n.memory.Some? && Unreported(r, n.memory.value.pending)
    ensures r.context.Some?
    ensures var m := n.memory.value;
            var w := ResultMessage(m, Interrupted(r), r.context.value.source, now);
            var (s, v) := Queued(Store(m, n.commandDisk), ParamsOf(u), w, o);
            && (v == Done ==> Inv(WithStore(n, s), u, issued, clock))
            && (v != Done ==> Inv(WithStore(n, s).(guard := n.guard.(fault := true)), u, issued, clock))
  {
    hide Good, ResultMessage, Queued, EpochInv, NoRepeats;
    var m := n.memory.value;
    var w := ResultMessage(m, Interrupted(r), r.context.value.source, now);
    InvWindow(n, u, issued, clock);
    ResultMessageFits(m, u.capacity, Interrupted(r), r.context.value.source, now);
    QueueKeeps(n, u, issued, clock, w, o);
    FaultKeeps(QueueIn(n, u, w, o), u, issued, clock);
  }

  lemma FaultKeeps(n: Node, u: Setup, issued: string -> real, clock: real)
    requires Inv(n, u, issued, clock) && n.running == None
    ensures Inv(n.(guard := n.guard.(fault := true)), u, issued, clock)
  {
    hide Good, NoRepeats, GoodDisk;
  }

  lemma RestartKeeps(n: Node, u: Setup, issued: string -> real, clock: real, boot: Boot, now: real, mono: real)
    requires Inv(n, u, issued, clock)
    ensures Inv(Restarted(n, u, boot, now, mono), u, issued, clock)
  {
    hide Inv, Reloaded, Recovered;
    ReloadKeeps(n, u, issued, clock, boot, now, mono);
    var m := Reloaded(n, u, boot, now, mono);
    if m.memory.Some? {
      RecoveryKeeps(m, u, issued, clock, m.memory.value.entries, now, Padded(boot.recovery, |m.memory.value.entries|));
    }
  }

  // ---- whole runs ------------------------------------------------------------------------------------

  /** Retries keep the timestamp of their command. */
  ghost predicate Faithful(e: Event, issued: string -> real) {
    e.Deliver? && e.command.id.Some? ==> e.command.issued == issued(e.command.id.value)
  }

  lemma StepKeeps(n: Node, u: Setup, issued: string -> real, clock: real, e: Event)
    requires Inv(n, u, issued, clock) && clock <= e.now && Faithful(e, issued)
    ensures Ready(n) && Inv(Step(n, u, e), u, issued, e.now)
  {
    hide Inv, Delivered, Ended, WithOwnership, ResultAcked, Restarted;
    InvReady(n, u, issued, clock);
    InvLater(n, u, issued, clock, e.now);
    match e
    case Deliver(c, now, mono, o1, o2, o3) =>
      if n.running == None {
        DeliverKeeps(n, u, issued, c, now, mono, [o1, o2, o3]);
      }
    case Finish(now, mono, o1, o2) =>
      if n.running.Some? {
        FinishKeeps(n, u, issued, now, mono, [o1, o2]);
      }
    case SetOwner(owner, generation, now, o) => OwnershipKeeps(n, u, issued, now, owner, generation, o);
    case Ack(k, now, o) => AckKeeps(n, u, issued, now, k, o);
    case Restart(boot, now, mono) => RestartKeeps(n, u, issued, now, boot, now, mono);
  }

  /** The wall clock does not go back and retries keep their timestamps. */
  ghost predicate Orderly(events: seq<Event>, clock: real, issued: string -> real)
    decreases |events|
  {
    events != [] ==>
       clock <= events[0].now && Faithful(events[0], issued) && Orderly(events[1..], events[0].now, issued)
  }

  ghost predicate Reaches(n: Node, u: Setup, events: seq<Event>, m: Node)
    decreases |events|
  {
    if events == [] then n == m else Ready(n) && Reaches(Step(n, u, events[0]), u, events[1..], m)
  }

  function Last(events: seq<Event>, clock: real): real {
    if events == [] then clock else events[|events| - 1].now
  }

  lemma {:induction false} RunKeeps(n: Node, u: Setup, issued: string -> real, clock: real, events: seq<Event>, m: Node)
    requires Inv(n, u, issued, clock) && Orderly(events, clock, issued) && Reaches(n, u, events, m)
    ensures Inv(m, u, issued, Last(events, clock))
    decreases |events|
  {
    hide Inv, Step, Faithful;
    if events != [] {
      StepKeeps(n, u, issued, clock, events[0]);
      RunKeeps(Step(n, u, events[0]), u, issued, events[0].now, events[1..], m);
    }
  }

  /** A controller with empty checkpoints, before its first start. */
  const BLANK := Node(Guard({}, map[], None, INITIAL_EPOCH, true), None, None, None, None, [], {})

  lemma BlankInv(u: Setup, issued: string -> real, clock: real)
    requires u.limits.ttl > 0.0 && 1 <= u.capacity <= 1024 && clock >= 0.0
    ensures Inv(BLANK, u, issued, clock)
  {
  }

  /**
   * No command id moves an actuator twice, over deliveries, completions, ownership changes,
   * acknowledgements and restarts at any point, with saves that fail after an unknown commit.
   */
  lemma AtMostOnce(u: Setup, issued: string -> real, clock: real, events: seq<Event>, m: Node)
    requires u.limits.ttl > 0.0 && 1 <= u.capacity <= 1024 && clock >= 0.0
    requires Orderly(events, clock, issued) && Reaches(BLANK, u, events, m)
    ensures NoRepeats(m.log)
  {
    BlankInv(u, issued, clock);
    RunKeeps(BLANK, u, issued, clock, events, m);
  }

  /** Epochs of admitted commands never decrease, each epoch has one gateway, the durable epoch covers all. */
  lemma EpochFence(u: Setup, issued: string -> real, clock: real, events: seq<Event>, m: Node)
    requires u.limits.ttl > 0.0 && 1 <= u.capacity <= 1024 && clock >= 0.0
    requires Orderly(events, clock, issued) && Reaches(BLANK, u, events, m)
    ensures Fenced(m.log, m.epochDisk)
  {
    BlankInv(u, issued, clock);
    RunKeeps(BLANK, u, issued, clock, events, m);
  }

  /**
   * In memory and on disk every admitted command keeps its row until its time is up and its outcome
   * has been confirmed; a completed row has its outcome pending or confirmed; the saved window is
   * always one a restart accepts.
   */
  lemma OutcomesAreKept(u: Setup, issued: string -> real, clock: real, events: seq<Event>, m: Node, id: string)
    requires u.limits.ttl > 0.0 && 1 <= u.capacity <= 1024 && clock >= 0.0
    requires Orderly(events, clock, issued) && Reaches(BLANK, u, events, m)
    ensures m.commandDisk.Some? ==> Validates(m.commandDisk.value) && Reporting(m.commandDisk.value.memory, m.confirmed)
    ensures m.memory.Some? ==> Reporting(m.memory.value, m.confirmed)
    ensures id in LoggedIds(m.log) ==>
              && m.commandDisk.Some?
              && Remembered(m.commandDisk.value.memory, id, u.limits.ttl, issued, m.confirmed, Last(events, clock))
              && (m.memory.Some? ==> Remembered(m.memory.value, id, u.limits.ttl, issued, m.confirmed,
                  Last(events, clock)))
  {
    hide Sound, Stamped, Reporting, Remembered, Validates;
    BlankInv(u, issued, clock);
    RunKeeps(BLANK, u, issued, clock, events, m);
    if m.commandDisk.Some? {
      SoundValidates(m.commandDisk.value.memory, u.capacity);
    }
  }

  /** The durable epoch never decreases and never changes hands within an epoch. */
  lemma DurableEpochAdvances(n: Node, u: Setup, issued: string -> real, clock: real, e: Event)
    requires Inv(n, u, issued, clock) && Ready(n)
    ensures NotBefore(n.epochDisk, Step(n, u, e).epochDisk)
  {
    hide Begun, Queued, Finished, Acknowledged, Loaded, GoodWindow, RunningInv, ResultMessage, Recovered, Fenced,
         Refusal, Reported;
    match e
    case Restart(boot, now, mono) =>
      var m := Reloaded(n, u, boot, now, mono);
      if m.memory.Some? {
        RecoveryKeepsEpoch(m, u, m.memory.value.entries, now, Padded(boot.recovery, |m.memory.value.entries|));
      }
    case _ =>
  }

  lemma {:induction false} RecoveryKeepsEpoch(n: Node, u: Setup, rows: seq<Row>, now: real, saves: seq<SaveOutcome>)
    requires n.memory.Some? && |saves| == |rows|
    ensures Recovered(n, u, rows, now, saves).epochDisk == n.epochDisk
    decreases |rows|
  {
    hide Queued, ResultMessage, Unreported;
    if rows != [] {
      var m := n.memory.value;
      if !Unreported(rows[0], m.pending) {
        RecoveryKeepsEpoch(n, u, rows[1..], now, saves[1..]);
      } else {
        UnreportedContext(rows[0], m.pending);
        var w := ResultMessage(m, Interrupted(rows[0]), rows[0].context.value.source, now);
        var s := Queued(Store(m, n.commandDisk), ParamsOf(u), w, saves[0]).0;
        RecoveryKeepsEpoch(WithStore(n, s), u, rows[1..], now, saves[1..]);
      }
    }
  }

  lemma UnreportedContext(r: Row, pending: map<Identity, Wire>)
    requires Unreported(r, pending)
    ensures r.context.Some?
  {
  }

  // ---- starting again --------------------------------------------------------------------------------

  function CountUnreported(rows: seq<Row>, pending: map<Identity, Wire>): nat {
    if rows == [] then 0 else CountUnreported(rows[1..], pending) + (if Unreported(rows[0], pending) then 1 else 0)
  }

  lemma {:induction false} OthersStayUnreported(rows: seq<Row>, pending: map<Identity, Wire>, w: Wire)
    requires IdentityOf(w.result) !in pending && forall r :: r in rows ==> Some(r.id) != w.result.commandId
    ensures CountUnreported(rows, pending[IdentityOf(w.result) := w]) == CountUnreported(rows, pending)
  {
    hide Unreported;
    if rows != [] {
      OthersStayUnreported(rows[1..], pending, w);
      StaysUnreported(rows[0], pending, w);
    }
  }

  lemma StaysUnreported(r: Row, pending: map<Identity, Wire>, w: Wire)
    requires IdentityOf(w.result) !in pending && Some(r.id) != w.result.commandId
    ensures Unreported(r, pending[IdentityOf(w.result) := w]) <==> Unreported(r, pending)
  {
    var k, next := IdentityOf(w.result), pending[IdentityOf(w.result) := w];
    assert next[k] == w;
    forall j | j in pending ensures next[j] == pending[j] {}
  }

  lemma InterruptedMessage(m: Memory, capacity: nat, r: Row, now: real)
    requires Sound(m, capacity) && Unreported(r, m.pending)
    ensures r.context.Some?
    ensures var w := ResultMessage(m, Interrupted(r), r.context.value.source, now);
            w.result == Interrupted(r) && IdentityOf(w.result) !in m.pending
  {
    hide Distinct, Backed, RowValid;
    ProtectedHolds(m.pending);
    var i := IndexOf(m.entries, Some(r.id));
    if i < |m.entries| {
      assert RowSound(m.entries[i], m.pending);
      CachedIsExecuted(m.entries[i], m.pending);
    }
  }

  /**
   * With working saves the recovery of interrupted commands succeeds exactly when the result window
   * has room for one result for each interrupted command that has none.
   */
  lemma {:induction false} RecoverySucceeds(n: Node, u: Setup, rows: seq<Row>, now: real, saves: seq<SaveOutcome>)
    requires n.memory.Some? && Sound(n.memory.value, u.capacity) && |saves| == |rows| && !n.guard.fault
    requires NoDuplicates(rows) && forall i :: 0 <= i < |saves| ==> saves[i] == Committed
    ensures !Recovered(n, u, rows, now, saves).guard.fault <==>
            |n.memory.value.pending| + CountUnreported(rows, n.memory.value.pending) <= u.capacity
    decreases |rows|
  {
    hide ResultMessage, Unreported, Sound, Upgraded;
    if rows == [] {
      WindowFits(n.memory.value, u.capacity);
    } else {
      var m := n.memory.value;
      if !Unreported(rows[0], m.pending) {
        RecoverySucceeds(n, u, rows[1..], now, saves[1..]);
      } else {
        InterruptedMessage(m, u.capacity, rows[0], now);
        ResultMessageFits(m, u.capacity, Interrupted(rows[0]), rows[0].context.value.source, now);
        var w := ResultMessage(m, Interrupted(rows[0]), rows[0].context.value.source, now);
        if |m.pending| < u.capacity {
          PendingGrows(m.pending, w);
          QueuedSound(m, u.capacity, w);
          OthersStayUnreported(rows[1..], m.pending, w);
          var s := Queued(Store(m, n.commandDisk), ParamsOf(u), w, saves[0]).0;
          RecoverySucceeds(WithStore(n, s), u, rows[1..], now, saves[1..]);
        }
      }
    }
  }

  predicate NoDuplicates(rows: seq<Row>) {
    rows == [] || ((forall r :: r in rows[1..] ==> r.id != rows[0].id) && NoDuplicates(rows[1..]))
  }

  lemma WindowFits(m: Memory, capacity: nat)
    requires Sound(m, capacity)
    ensures |m.pending| <= capacity
  {
  }

  lemma {:induction false} DistinctRows(rows: seq<Row>)
    requires Distinct(rows)
    ensures NoDuplicates(rows)
  {
    if rows != [] {
      DistinctRows(rows[1..]);
    }
  }

  lemma {:induction false} FaultStays(n: Node, u: Setup, rows: seq<Row>, now: real, saves: seq<SaveOutcome>)
    requires n.memory.Some? && |saves| == |rows| && n.guard.fault
    ensures Recovered(n, u, rows, now, saves).guard.fault
    decreases |rows|
  {
    hide Queued, ResultMessage, Unreported;
    if rows != [] {
      var m := n.memory.value;
      if !Unreported(rows[0], m.pending) {
        FaultStays(n, u, rows[1..], now, saves[1..]);
      } else {
        UnreportedContext(rows[0], m.pending);
        var w := ResultMessage(m, Interrupted(rows[0]), rows[0].context.value.source, now);
        var s := Queued(Store(m, n.commandDisk), ParamsOf(u), w, saves[0]).0;
        FaultStays(WithStore(n, s), u, rows[1..], now, saves[1..]);
      }
    }
  }

  lemma {:induction false} PaddedCommitted(saves: seq<SaveOutcome>, n: nat)
    requires forall i :: 0 <= i < |saves| ==> saves[i] == Committed
    ensures forall i :: 0 <= i < n ==> Padded(saves, n)[i] == Committed
    decreases n
  {
    if n > 0 {
      PaddedCommitted(if saves == [] then [] else saves[1..], n - 1);
    }
  }

  /** A start that reads both checkpoints and whose saves all succeed. */
  predicate Healthy(boot: Boot) {
    && boot.epochReadable && boot.commandsReadable && boot.save == Committed
    && forall i :: 0 <= i < |boot.recovery| ==> boot.recovery[i] == Committed
  }

  /** The window a start finds. */
  function SavedWindow(d: Option<Checkpoint>): Memory {
    if d.Some? then d.value.memory else Memory([], map[])
  }

  /**
   * In every reachable state: a restart with working storage leaves a controller that accepts commands
   * if and only if the saved owner is a known gateway and the saved result window has a free place for
   * each interrupted command without a pending result.
   */
  lemma RestartSucceeds(n: Node, u: Setup, issued: string -> real, clock: real, boot: Boot, now: real, mono: real)
    requires Inv(n, u, issued, clock) && Healthy(boot)
    ensures var m := SavedWindow(n.commandDisk);
            !Restarted(n, u, boot, now, mono).guard.fault <==>
              && (n.epochDisk.Some? ==> EpochValid(n.epochDisk.value))
              && |m.pending| + CountUnreported(m.entries, m.pending) <= u.capacity
  {
    hide GoodWindow, Unreported, Recovered, Loaded, EpochInv, NoRepeats;
    LoadedGood(n, u, issued, clock, boot.commandsReadable, now, boot.save);
    if n.commandDisk == None {
      LoadedSaved(n, u, now);
    }
    var r := Reloaded(n, u, boot, now, mono);
    var m := r.memory.value;
    ReloadKeeps(n, u, issued, clock, boot, now, mono);
    InvWindow(r, u, issued, clock);
    PaddedCommitted(boot.recovery, |m.entries|);
    SoundDistinct(m, u.capacity);
    var saves := Padded(boot.recovery, |m.entries|);
    if r.guard.fault {
      FaultStays(r, u, m.entries, now, saves);
    } else {
      RecoverySucceeds(r, u, m.entries, now, saves);
    }
  }

  lemma SoundDistinct(m: Memory, capacity: nat)
    requires Sound(m, capacity)
    ensures NoDuplicates(m.entries)
  {
    DistinctRows(m.entries);
  }

  lemma LoadedSaved(n: Node, u: Setup, now: real)
    requires n.commandDisk == None
    ensures Loaded(n.commandDisk, ParamsOf(u), true, now, Committed).0 == Some(Memory([], map[]))
  {
  }
}
