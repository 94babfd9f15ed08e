/** The durable window of admitted commands and unconfirmed results of a controller. */
module RecentCommands {
  import opened Wrappers

  type Name = s: string | s != "" witness "A1"

  /** gateway_generation of a command: missing, not an integer, or an epoch. */
  datatype Generation = Absent | Malformed | Epoch(value: int)

  datatype Status = EXECUTED | UNKNOWN | DUPLICATE | REJECTED

  datatype Reason =
    | INVALID_TYPE | INVALID_COMMAND_ID | EXPIRED | STALE_GENERATION | NOT_OWNER | DUPLICATE_COMMAND_ID
    | INVALID_DURATION | DURATION_EXCEEDED | COOLDOWN | STATE_UNAVAILABLE | RESULT_BACKPRESSURE
    | INTERRUPTED_EXECUTION

  datatype Result = Result(commandId: Option<string>, kind: Option<string>, duration: Option<real>,
                           generation: Generation, status: Status, reason: Option<Reason>)

  /** What the message identity hashes; equal identities mean equal contents of this kind. */
  datatype Identity = Identity(commandId: Option<string>, generation: Generation, status: Status,
                               reason: Option<Reason>)

  function IdentityOf(r: Result): Identity {
    Identity(r.commandId, r.generation, r.status, r.reason)
  }

  /** A CONTROL_RESULT on the wire; its message id is the identity of its result. */
  datatype Wire = Wire(target: Name, stamp: real, result: Result)

  datatype RowState = INTENT | COMPLETED

  datatype Context = Context(source: Name, generation: Generation, kind: Option<string>, issuedAt: real)

  datatype Row = Row(id: string, state: RowState, result: Option<Result>, context: Option<Context>,
                     retainUntil: Option<real>, wire: Option<Wire>)

  datatype Memory = Memory(entries: seq<Row>, pending: map<Identity, Wire>)

  datatype Checkpoint = Checkpoint(version: int, capacity: nat, memory: Memory)

  const VERSION := 2

  datatype Verdict = Done | Backpressure | Broken

  datatype Params = Params(capacity: nat, retention: real)

  datatype Store = Store(memory: Memory, disk: Option<Checkpoint>)

  // ---- rows ------------------------------------------------------------------------------------

  function Ids(entries: seq<Row>): set<string> {
    set r | r in entries :: r.id
  }

  predicate Distinct(entries: seq<Row>) {
    forall i, j :: 0 <= i < j < |entries| ==> entries[i].id != entries[j].id
  }

  /** Position of the row of a command, |entries| when it has none. */
  function IndexOf(entries: seq<Row>, id: Option<string>): (i: nat)
    ensures i <= |entries|
    ensures i < |entries| ==> Some(entries[i].id) == id
    ensures i == |entries| ==> forall j :: 0 <= j < |entries| ==> Some(entries[j].id) != id
    ensures forall j :: 0 <= j < i ==> Some(entries[j].id) != id
  {
    if entries == [] || Some(entries[0].id) == id then 0 else 1 + IndexOf(entries[1..], id)
  }

  function Without(entries: seq<Row>, i: nat): (r: seq<Row>)
    requires i < |entries|
    ensures |r| == |entries| - 1
  {
    entries[..i] + entries[i + 1..]
  }

  // ---- eviction --------------------------------------------------------------------------------

  function Protected(pending: map<Identity, Wire>): set<Option<string>> {
    set k | k in pending :: pending[k].result.commandId
  }

  /** A row of an old checkpoint has no deadline; it counts as zero. */
  function Deadline(r: Row): real {
    if r.retainUntil.Some? then r.retainUntil.value else 0.0
  }

  predicate Evictable(r: Row, protected: set<Option<string>>, now: real) {
    r.state == COMPLETED && Some(r.id) !in protected && Deadline(r) < now
  }

  function Victim(entries: seq<Row>, protected: set<Option<string>>, now: real): (i: nat)
    ensures i <= |entries|
    ensures i < |entries| ==> Evictable(entries[i], protected, now)
    ensures forall j :: 0 <= j < i ==> !Evictable(entries[j], protected, now)
  {
    if entries == [] || Evictable(entries[0], protected, now) then 0 else 1 + Victim(entries[1..], protected, now)
  }

  /** Evicts one row after the other until the window fits; None when too few may be evicted. */
  function Trim(entries: seq<Row>, capacity: nat, protected: set<Option<string>>, now: real): Option<seq<Row>>
    decreases |entries|
  {
    if |entries| <= capacity then Some(entries)
    else
      var i := Victim(entries, protected, now);
      if i == |entries| then None else Trim(Without(entries, i), capacity, protected, now)
  }

  function CountEvictable(entries: seq<Row>, protected: set<Option<string>>, now: real): nat {
    if entries == [] then 0
    else (if Evictable(entries[0], protected, now) then 1 else 0) + CountEvictable(entries[1..], protected, now)
  }

  /** One pass: the n oldest evictable rows go, everything else stays in order. */
  function DropOldest(entries: seq<Row>, n: nat, protected: set<Option<string>>, now: real): (r: seq<Row>)
    ensures forall row :: row in r ==> row in entries
    ensures forall row :: row in entries && !Evictable(row, protected, now) ==> row in r
  {
    if entries == [] then []
    else if n > 0 && Evictable(entries[0], protected, now) then DropOldest(entries[1..], n - 1, protected, now)
    else [entries[0]] + DropOldest(entries[1..], n, protected, now)
  }

  lemma {:induction false} DropNone(entries: seq<Row>, protected: set<Option<string>>, now: real)
    ensures DropOldest(entries, 0, protected, now) == entries
  {
    if entries != [] {
      DropNone(entries[1..], protected, now);
    }
  }

  lemma {:induction false} DropFirst(entries: seq<Row>, n: nat, protected: set<Option<string>>, now: real)
    requires n > 0
    ensures var i := Victim(entries, protected, now);
            var count := CountEvictable(entries, protected, now);
            if i == |entries| then count == 0
            else
              && CountEvictable(Without(entries, i), protected, now) + 1 == count
              && DropOldest(entries, n, protected, now) == DropOldest(Without(entries, i), n - 1, protected, now)
  {
    hide Evictable;
    var i := Victim(entries, protected, now);
    if entries != [] {
      if Evictable(entries[0], protected, now) {
        assert Without(entries, 0) == entries[1..];
      } else {
        DropFirst(entries[1..], n, protected, now);
        if i < |entries| {
          assert Without(entries, i)[1..] == Without(entries[1..], i - 1);
          assert Without(entries, i)[0] == entries[0];
        }
      }
    }
  }

  /** The loop of evictions is one pass, and it fails only when too few rows may go. */
  lemma {:induction false} TrimIsOnePass(entries: seq<Row>, capacity: nat, protected: set<Option<string>>, now: real)
    ensures Trim(entries, capacity, protected, now) ==
            var excess := if |entries| > capacity then |entries| - capacity else 0;
            if excess <= CountEvictable(entries, protected, now)
            then Some(DropOldest(entries, excess, protected, now)) else None
    decreases |entries|
  {
    hide Evictable, CountEvictable, DropOldest;
    if |entries| <= capacity {
      DropNone(entries, protected, now);
    } else {
      DropFirst(entries, |entries| - capacity, protected, now);
      var i := Victim(entries, protected, now);
      if i < |entries| {
        TrimIsOnePass(Without(entries, i), capacity, protected, now);
      }
    }
  }

  lemma WithoutDistinct(entries: seq<Row>, i: nat)
    requires Distinct(entries) && i < |entries|
    ensures Distinct(Without(entries, i))
    ensures forall r :: r in Without(entries, i) <==> r in entries && r != entries[i]
  {
    var w := Without(entries, i);
    forall r | r in entries && r != entries[i] ensures r in w {
      var j :| 0 <= j < |entries| && entries[j] == r;
      assert r == w[if j < i then j else j - 1];
    }
  }

  /** What remains is a part of the window; every row that is gone was evictable. */
  lemma {:induction false} TrimKeeps(entries: seq<Row>, capacity: nat, protected: set<Option<string>>, now: real)
    requires Distinct(entries) && Trim(entries, capacity, protected, now).Some?
    ensures var t := Trim(entries, capacity, protected, now).value;
            && Distinct(t) && |t| <= capacity
            && (forall r :: r in t ==> r in entries)
            && (forall r :: r in entries && r !in t ==> Evictable(r, protected, now))
    decreases |entries|
  {
    hide Evictable, Distinct;
    if |entries| > capacity {
      var i := Victim(entries, protected, now);
      WithoutDistinct(entries, i);
      TrimKeeps(Without(entries, i), capacity, protected, now);
    }
  }

  // ---- the checkpoint --------------------------------------------------------------------------

  predicate RowValid(r: Row) {
    && 1 <= |r.id| <= 256 && (r.retainUntil.Some? ==> r.retainUntil.value >= 0.0)
    && (r.state == INTENT ==> r.result == None && r.wire == None)
    && (r.state == COMPLETED ==> r.result.Some? && r.result.value.status == EXECUTED)
    && (r.wire.Some? ==> r.result == Some(r.wire.value.result))
  }

  predicate RowsValid(entries: seq<Row>) {
    forall i :: 0 <= i < |entries| ==> RowValid(entries[i])
  }

  predicate PendingValid(pending: map<Identity, Wire>) {
    forall k :: k in pending ==> IdentityOf(pending[k].result) == k
  }

  /** What a checkpoint must satisfy to be restored. */
  predicate Validates(saved: Checkpoint) {
    && saved.version in {1, VERSION} && 1 <= saved.capacity <= 1024 && |saved.memory.entries| <= saved.capacity
    && Distinct(saved.memory.entries) && RowsValid(saved.memory.entries)
    && |saved.memory.pending| <= saved.capacity && PendingValid(saved.memory.pending)
  }

  function Save(s: Store, p: Params, next: Memory, o: SaveOutcome): (Store, Verdict) {
    (Store(if o == Committed then next else s.memory,
           if o == LostUnapplied then s.disk else Some(Checkpoint(VERSION, p.capacity, next))),
     if o == Committed then Done else Broken)
  }

  function NewRow(p: Params, id: string, context: Context): Row {
    Row(id, INTENT, None, Some(context), Some(if p.retention == 0.0 then 0.0 else context.issuedAt + p.retention), None)
  }

  function Begun(s: Store, p: Params, id: string, context: Context, now: real, o: SaveOutcome): (Store, Verdict) {
    var m := s.memory;
    if !(1 <= |id| <= 256) || id in Ids(m.entries) then (s, Broken)
    else if |m.pending| >= p.capacity then (s, Backpressure)
    else
      match Trim(m.entries + [NewRow(p, id, context)], p.capacity, Protected(m.pending), now)
      case None => (s, Backpressure)
      case Some(entries) => Save(s, p, Memory(entries, m.pending), o)
  }

  /** Pending results with w added; Broken on an identity conflict, Backpressure when full. */
  function WithResult(pending: map<Identity, Wire>, p: Params, w: Wire): (map<Identity, Wire>, Verdict) {
    var k := IdentityOf(w.result);
    if k in pending && pending[k] != w then (pending, Broken)
    else if k !in pending && |pending| >= p.capacity then (pending, Backpressure)
    else (pending[k := w], Done)
  }

  function Outcome(entries: seq<Row>, i: nat, result: Result, w: Wire): seq<Row>
    requires i < |entries|
  {
    entries[i := entries[i].(state := COMPLETED, result := Some(result), wire := Some(w))]
  }

  /** complete(): a command without a row is an error. */
  function Finished(s: Store, p: Params, id: string, result: Result, w: Wire, o: SaveOutcome): (Store, Verdict) {
    var i := IndexOf(s.memory.entries, Some(id));
    if i == |s.memory.entries| then (s, Broken)
    else
      var (pending, v) := WithResult(s.memory.pending, p, w);
      if v != Done then (s, v) else Save(s, p, Memory(Outcome(s.memory.entries, i, result, w), pending), o)
  }

  /** Rows after queueing w: an old completed row keeps its first reliable wire form. */
  function Upgraded(entries: seq<Row>, w: Wire): seq<Row> {
    var i := IndexOf(entries, w.result.commandId);
    if i < |entries| && entries[i].state == COMPLETED && entries[i].wire == None && w.result.status == EXECUTED
    then entries[i := entries[i].(wire := Some(w))] else entries
  }

  function Queued(s: Store, p: Params, w: Wire, o: SaveOutcome): (Store, Verdict) {
    var (pending, v) := WithResult(s.memory.pending, p, w);
    if v != Done then (s, v) else Save(s, p, Memory(Upgraded(s.memory.entries, w), pending), o)
  }

  function Acknowledged(s: Store, p: Params, k: Identity, o: SaveOutcome): (Store, Verdict) {
    if k !in s.memory.pending then (s, Done)
    else Save(s, p, s.memory.(pending := s.memory.pending - {k}), o)
  }

  /** A row without a deadline is kept for one full retention from now on. */
  function Migrated(r: Row, now: real, retention: real): Row {
    if r.retainUntil.Some? then r else r.(retainUntil := Some(if retention == 0.0 then 0.0 else now + retention))
  }

  function AllMigrated(entries: seq<Row>, now: real, retention: real): (r: seq<Row>)
    ensures |r| == |entries| && forall i :: 0 <= i < |r| ==> r[i] == Migrated(entries[i], now, retention)
  {
    seq(|entries|, i requires 0 <= i < |entries| => Migrated(entries[i], now, retention))
  }

  /** Memory and disk after a start; without memory the controller must not execute. */
  function Loaded(disk: Option<Checkpoint>, p: Params, readable: bool, now: real, o: SaveOutcome)
    : (Option<Memory>, Option<Checkpoint>)
  {
    if !readable || (disk.Some? && !Validates(disk.value)) then (None, disk)
    else
      var saved := if disk == None then Memory([], map[]) else disk.value.memory;
      match Trim(AllMigrated(saved.entries, now, p.retention), p.capacity, Protected(saved.pending), now)
      case None => (None, disk)
      case Some(entries) =>
        if |saved.pending| > p.capacity then (None, disk)
        else
          var (s, v) := Save(Store(saved, disk), p, Memory(entries, saved.pending), o);
          (if v == Done then Some(s.memory) else None, s.disk)
  }

  /** Wire form of a result: the cached one, else the pending one, else a new one. */
  function ResultMessage(m: Memory, r: Result, target: Name, stamp: real): Wire {
    var i := IndexOf(m.entries, r.commandId);
    if i < |m.entries| && m.entries[i].wire.Some? && m.entries[i].wire.value.result == r then m.entries[i].wire.value
    else if IdentityOf(r) in m.pending then m.pending[IdentityOf(r)]
    else Wire(target, stamp, r)
  }

  // ---- the store -------------------------------------------------------------------------------

  class RecentCommandStore {
    const params: Params
    var entries: seq<Row>
    var pending: map<Identity, Wire>
    var disk: Option<Checkpoint>

    ghost function View(): Store
      reads this
    {
      Store(Memory(entries, pending), disk)
    }

    constructor (params: Params, disk: Option<Checkpoint>)
      ensures this.params == params && View() == Store(Memory([], map[]), disk)
    {
      this.params := params;
      entries, pending, this.disk := [], map[], disk;
    }

    /** The part of the constructor that reads the checkpoint; false stands for its exception. */
    method Load(readable: bool, now: real, o: SaveOutcome) returns (ok: bool)
      modifies this
      ensures var (m, d) := Loaded(old(disk), params, readable, now, o);
              && disk == d && ok == m.Some? && (ok ==> View().memory == m.value)
    {
      hide Validates;
      if !readable {
        return false;
      }
      var saved := Memory([], map[]);
      if disk.Some? {
        ok := Validate(disk.value);
        if !ok {
          return false;
        }
        saved := disk.value.memory;
      }
      Migrate(saved.entries, now);
      pending := saved.pending;
      var kept := TrimRows(entries, now);
      if kept == None || |pending| > params.capacity {
        return false;
      }
      var v := Write(Memory(kept.value, pending), o);
      ok := v == Done;
    }

    /** The rows of a checkpoint, each with a deadline. */
    method Migrate(saved: seq<Row>, now: real)
      modifies this`entries
      ensures entries == AllMigrated(saved, now, params.retention)
    {
      entries := saved;
      for i := 0 to |saved|
        invariant |entries| == |saved|
        invariant forall j :: 0 <= j < i ==> entries[j] == Migrated(saved[j], now, params.retention)
        invariant forall j :: i <= j < |saved| ==> entries[j] == saved[j]
      {
        if entries[i].retainUntil == None {
          var until := if params.retention == 0.0 then 0.0 else now + params.retention;
          entries := entries[i := entries[i].(retainUntil := Some(until))];
        }
      }
    }

    method Validate(saved: Checkpoint) returns (ok: bool)
      ensures ok <==> Validates(saved)
    {
      hide RowValid;
      var rows := saved.memory.entries;
      if saved.version !in {1, VERSION} || !(1 <= saved.capacity <= 1024) || |rows| > saved.capacity
          || |saved.memory.pending| > saved.capacity {
        return false;
      }
      var ids := {};
      for i := 0 to |rows|
        invariant ids == set j | 0 <= j < i :: rows[j].id
        invariant forall j :: 0 <= j < i ==> RowValid(rows[j])
        invariant Distinct(rows[..i])
      {
        if rows[i].id in ids {
          var j :| 0 <= j < i && rows[j].id == rows[i].id;
          return false;
        }
        if !RowValid(rows[i]) {
          return false;
        }
        ids := ids + {rows[i].id};
      }
      assert rows[..|rows|] == rows;
      ok := PendingValid(saved.memory.pending);
    }

    method TrimRows(entries: seq<Row>, now: real) returns (r: Option<seq<Row>>)
      ensures r == Trim(entries, params.capacity, Protected(pending), now)
    {
      hide Evictable;
      var protected := Protected(pending);
      var kept := entries;
      while |kept| > params.capacity
        invariant Trim(entries, params.capacity, protected, now) == Trim(kept, params.capacity, protected, now)
        decreases |kept|
      {
        var i := 0;
        while i < |kept| && !Evictable(kept[i], protected, now)
          invariant i <= |kept| && forall j :: 0 <= j < i ==> !Evictable(kept[j], protected, now)
        {
          i := i + 1;
        }
        assert i == Victim(kept, protected, now);
        if i == |kept| {
          return None;
        }
        kept := Without(kept, i);
      }
      r := Some(kept);
    }

    /** The checkpoint is written first; memory follows only a save that returned. */
    method Write(next: Memory, o: SaveOutcome) returns (v: Verdict)
      modifies this
      ensures (View(), v) == Save(old(View()), params, next, o)
    {
      if o != LostUnapplied {
        disk := Some(Checkpoint(VERSION, params.capacity, next));
      }
      if o != Committed {
        return Broken;
      }
      entries, pending, v := next.entries, next.pending, Done;
    }

    method Begin(id: string, context: Context, now: real, o: SaveOutcome) returns (v: Verdict)
      modifies this
      ensures (View(), v) == Begun(old(View()), params, id, context, now, o)
    {
      if !(1 <= |id| <= 256) || id in Ids(entries) {
        return Broken;
      }
      if |pending| >= params.capacity {
        return Backpressure;
      }
      var kept := TrimRows(entries + [NewRow(params, id, context)], now);
      if kept == None {
        return Backpressure;
      }
      v := Write(Memory(kept.value, pending), o);
    }

    method Complete(id: string, result: Result, w: Wire, o: SaveOutcome) returns (v: Verdict)
      modifies this
      ensures (View(), v) == Finished(old(View()), params, id, result, w, o)
    {
      var i := IndexOf(entries, Some(id));
      if i == |entries| {
        return Broken;
      }
      var (next, fits) := WithResult(pending, params, w);
      if fits != Done {
        return fits;
      }
      v := Write(Memory(Outcome(entries, i, result, w), next), o);
    }

    method QueueResult(w: Wire, o: SaveOutcome) returns (v: Verdict)
      modifies this
      ensures (View(), v) == Queued(old(View()), params, w, o)
    {
      var (next, fits) := WithResult(pending, params, w);
      if fits != Done {
        return fits;
      }
      v := Write(Memory(Upgraded(entries, w), next), o);
    }

    method AcknowledgeResult(k: Identity, o: SaveOutcome) returns (v: Verdict)
      modifies this
      ensures (View(), v) == Acknowledged(old(View()), params, k, o)
    {
      if k !in pending {
        return Done;
      }
      v := Write(Memory(entries, pending - {k}), o);
    }
  }
}
