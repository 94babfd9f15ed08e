/** The stateful command check of a controller: freshness, epoch fence, idempotency, limits, cooldown. */
module SafetyGuards {
  import opened Wrappers
  import opened RecentCommands

  const GATEWAYS: set<Name> := {"A1", "A2"}
  const INITIAL_EPOCH := 1

  datatype Limits = Limits(maxDuration: map<string, real>, cooldown: map<string, real>, ttl: real)

  /** A CONTROL_COMMAND; a type or a duration that is not of the right kind is None. */
  datatype Command = Command(id: Option<string>, kind: Option<string>, duration: Option<real>, issued: real,
                             generation: Generation, source: Name)

  datatype EpochRecord = EpochRecord(epoch: int, owner: Option<Name>)

  datatype Guard = Guard(executed: set<string>, last: map<string, real>, owner: Option<Name>, epoch: int, fault: bool)

  predicate EpochValid(saved: EpochRecord) {
    saved.epoch >= 1 && (saved.owner.Some? ==> saved.owner.value in GATEWAYS)
  }

  // ---- the checks, one predicate each ------------------------------------------------------------

  predicate Known(l: Limits, c: Command) {
    c.kind.Some? && c.kind.value in l.maxDuration
  }

  predicate Named(c: Command) {
    c.id.Some? && c.id.value != ""
  }

  predicate InTime(l: Limits, c: Command, now: real) {
    c.issued <= now + l.ttl && now - c.issued <= l.ttl
  }

  predicate Current(g: Guard, c: Command) {
    c.generation.Absent? || (c.generation.Epoch? && c.generation.value >= g.epoch)
  }

  /** Another gateway than the owner needs a newer epoch. */
  predicate Entitled(g: Guard, c: Command) {
    g.owner in {None, Some(c.source)} || (c.generation.Epoch? && c.generation.value > g.epoch)
  }

  predicate Rested(g: Guard, l: Limits, kind: string, mono: real) {
    kind in g.last ==> mono - g.last[kind] >= (if kind in l.cooldown then l.cooldown[kind] else 0.0)
  }

  /** A command passes exactly when every single requirement holds. */
  predicate Admissible(g: Guard, l: Limits, c: Command, now: real, mono: real) {
    && !g.fault && Known(l, c) && Named(c) && InTime(l, c, now) && Current(g, c) && Entitled(g, c)
    && c.id.value !in g.executed
    && c.duration.Some? && 0.0 < c.duration.value <= l.maxDuration[c.kind.value]
    && Rested(g, l, c.kind.value, mono)
  }

  /** First failing check, in the order of the source. */
  function Refusal(g: Guard, l: Limits, c: Command, now: real, mono: real): (r: Option<Reason>)
    ensures r == None <==> Admissible(g, l, c, now, mono)
    ensures r == Some(DUPLICATE_COMMAND_ID) ==> !g.fault && Named(c) && c.id.value in g.executed && InTime(l, c, now)
  {
    if g.fault then Some(STATE_UNAVAILABLE)
    else if !Known(l, c) then Some(INVALID_TYPE)
    else if !Named(c) then Some(INVALID_COMMAND_ID)
    else if !InTime(l, c, now) then Some(EXPIRED)
    else if !Current(g, c) then Some(STALE_GENERATION)
    else if !Entitled(g, c) then Some(NOT_OWNER)
    else if c.id.value in g.executed then Some(DUPLICATE_COMMAND_ID)
    else if c.duration == None || c.duration.value <= 0.0 then Some(INVALID_DURATION)
    else if c.duration.value > l.maxDuration[c.kind.value] then Some(DURATION_EXCEEDED)
    else if !Rested(g, l, c.kind.value, mono) then Some(COOLDOWN)
    else None
  }

  // ---- ownership ---------------------------------------------------------------------------------

  predicate Accepts(g: Guard, owner: Name, generation: Generation) {
    && generation.Epoch? && generation.value >= g.epoch
    && (generation.value == g.epoch ==> g.owner in {None, Some(owner)})
  }

  /** set_ownership: the epoch is durable before it counts. */
  function Owned(g: Guard, disk: Option<EpochRecord>, owner: Name, generation: Generation, o: SaveOutcome)
    : (Guard, Option<EpochRecord>, bool)
  {
    if !Accepts(g, owner, generation) || g.fault then (g, disk, false)
    else
      var record := EpochRecord(generation.value, Some(owner));
      (if o == Committed then g.(owner := Some(owner), epoch := generation.value) else g.(fault := true),
       if o == LostUnapplied then disk else Some(record),
       o == Committed)
  }

  /** commit: what an execution leaves behind. */
  function Recorded(g: Guard, id: string, kind: string, generation: Generation, source: Name, mono: real): Guard {
    var epoch := if generation.Epoch? && generation.value > g.epoch then generation.value else g.epoch;
    var claims := if generation.Absent? then g.owner in {None, Some(source)}
                  else generation.Epoch? && generation.value >= epoch;
    g.(executed := g.executed + {id}, last := g.last[kind := mono], epoch := epoch,
       owner := if claims then Some(source) else g.owner)
  }

  /** The guard after a start; without a readable record it refuses everything. */
  function Restored(l: Limits, disk: Option<EpochRecord>, readable: bool, mono: real): Guard {
    if !readable || (disk.Some? && !EpochValid(disk.value)) then Guard({}, map[], None, INITIAL_EPOCH, true)
    else if disk == None then Guard({}, map[], None, INITIAL_EPOCH, false)
    else Guard({}, map k | k in l.cooldown :: mono, disk.value.owner, disk.value.epoch, false)
  }

  class SafetyGuard {
    const limits: Limits
    var executed: set<string>
    var last: map<string, real>
    var owner: Option<Name>
    var epoch: int
    var fault: bool
    var disk: Option<EpochRecord>

    ghost function View(): Guard
      reads this
    {
      Guard(executed, last, owner, epoch, fault)
    }

    constructor (limits: Limits, disk: Option<EpochRecord>, readable: bool, mono: real)
      ensures this.limits == limits && this.disk == disk && View() == Restored(limits, disk, readable, mono)
    {
      this.limits, this.disk := limits, disk;
      executed, last, owner, epoch, fault := {}, map[], None, INITIAL_EPOCH, false;
      if !readable || (disk.Some? && !EpochValid(disk.value)) {
        fault := true;
      } else if disk.Some? {
        epoch, owner := disk.value.epoch, disk.value.owner;
        last := map k | k in limits.cooldown :: mono;
      }
    }

    method Check(c: Command, now: real, mono: real) returns (r: Option<Reason>)
      ensures r == Refusal(View(), limits, c, now, mono)
    {
      if fault { return Some(STATE_UNAVAILABLE); }
      if !Known(limits, c) { return Some(INVALID_TYPE); }
      if !Named(c) { return Some(INVALID_COMMAND_ID); }
      if c.issued > now + limits.ttl || now - c.issued > limits.ttl { return Some(EXPIRED); }
      if c.generation != Absent && (c.generation == Malformed || c.generation.value < epoch) {
        return Some(STALE_GENERATION);
      }
      if owner.Some? && c.source != owner.value {
        if c.generation == Absent || c.generation.value <= epoch { return Some(NOT_OWNER); }
      }
      if c.id.value in executed { return Some(DUPLICATE_COMMAND_ID); }
      if c.duration == None || c.duration.value <= 0.0 { return Some(INVALID_DURATION); }
      var kind := c.kind.value;
      if c.duration.value > limits.maxDuration[kind] { return Some(DURATION_EXCEEDED); }
      var cooldown := if kind in limits.cooldown then limits.cooldown[kind] else 0.0;
      if kind in last && mono - last[kind] < cooldown { return Some(COOLDOWN); }
      r := None;
    }

    method SetOwnership(owner: Name, generation: Generation, o: SaveOutcome) returns (ok: bool)
      modifies this
      ensures (View(), disk, ok) == Owned(old(View()), old(disk), owner, generation, o)
    {
      if !generation.Epoch? || generation.value < epoch
         || (generation.value == epoch && this.owner != None && this.owner != Some(owner)) {
        return false;
      }
      if fault {
        return false;
      }
      if o != LostUnapplied {
        disk := Some(EpochRecord(generation.value, Some(owner)));
      }
      if o != Committed {
        fault := true;
        return false;
      }
      this.owner, epoch := Some(owner), generation.value;
      ok := true;
    }

    method Commit(id: string, kind: string, generation: Generation, source: Name, mono: real)
      modifies this
      ensures disk == old(disk) && View() == Recorded(old(View()), id, kind, generation, source, mono)
    {
      executed, last := executed + {id}, last[kind := mono];
      if generation.Epoch? && generation.value > epoch {
        epoch := generation.value;
      }
      if (generation.Epoch? && generation.value >= epoch)
         || (generation.Absent? && owner in {None, Some(source)}) {
        owner := Some(source);
      }
    }
  }
}
