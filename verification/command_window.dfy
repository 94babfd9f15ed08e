/** What every save of the command window keeps: rows, pending results and the admissions they account for. */
module CommandWindow {
  import opened Wrappers
  import opened RecentCommands

  // ---- soundness of one window ---------------------------------------------------------------------

  predicate RowSound(r: Row, pending: map<Identity, Wire>) {
    && RowValid(r)
    && (r.state == COMPLETED ==> r.result.value.commandId == Some(r.id))
    && (r.wire.Some? && IdentityOf(r.wire.value.result) in pending ==>
          pending[IdentityOf(r.wire.value.result)] == r.wire.value)
  }

  /** Row r holds the outcome w reports. */
  predicate Backs(r: Row, w: Wire) {
    r.state == COMPLETED && Some(r.id) == w.result.commandId && r.result == Some(w.result)
  }

  /** A pending EXECUTED result has its completed row. */
  ghost predicate Backed(m: Memory) {
    forall k :: k in m.pending && k.status == EXECUTED ==> exists r :: r in m.entries && Backs(r, m.pending[k])
  }

  ghost predicate Sound(m: Memory, capacity: nat) {
    && 1 <= capacity <= 1024 && |m.entries| <= capacity && |m.pending| <= capacity
    && Distinct(m.entries) && PendingValid(m.pending)
    && (forall r :: r in m.entries ==> RowSound(r, m.pending))
    && Backed(m)
  }

  /** A sound window is one the restore validator accepts. */
  lemma SoundValidates(m: Memory, capacity: nat)
    requires Sound(m, capacity)
    ensures Validates(Checkpoint(VERSION, capacity, m))
  {
    hide RowValid;
    forall i | 0 <= i < |m.entries| ensures RowValid(m.entries[i]) {
      assert m.entries[i] in m.entries;
    }
  }

  // ---- admissions ----------------------------------------------------------------------------------

  /** All rows of an id carry the one timestamp its command has. */
  ghost predicate Stamped(m: Memory, ttl: real, issued: string -> real) {
    forall r :: r in m.entries ==> r.retainUntil == Some(issued(r.id) + ttl)
  }

  ghost predicate Confirmed(id: string, confirmed: set<Identity>) {
    exists k :: k in confirmed && k.commandId == Some(id) && k.status == EXECUTED
  }

  /** An admitted id has its row; without it the command is out of time and its outcome was confirmed. */
  ghost predicate Remembered(m: Memory, id: string, ttl: real, issued: string -> real, confirmed: set<Identity>,
                             clock: real) {
    id in Ids(m.entries) || (issued(id) + ttl < clock && Confirmed(id, confirmed))
  }

  /** The outcome of a completed row is on its way or confirmed. */
  ghost predicate Reporting(m: Memory, confirmed: set<Identity>) {
    forall r :: r in m.entries && r.state == COMPLETED && r.result.Some? ==>
      IdentityOf(r.result.value) in m.pending.Keys + confirmed
  }

  datatype Past = Past(ids: set<string>, confirmed: set<Identity>, clock: real)

  ghost predicate Good(m: Memory, capacity: nat, ttl: real, issued: string -> real, p: Past) {
    && Sound(m, capacity) && Stamped(m, ttl, issued) && Reporting(m, p.confirmed)
    && forall id :: id in p.ids ==> Remembered(m, id, ttl, issued, p.confirmed, p.clock)
  }

  lemma GoodLater(m: Memory, capacity: nat, ttl: real, issued: string -> real, p: Past, q: Past)
    requires Good(m, capacity, ttl, issued, p)
    requires q.ids <= p.ids && p.confirmed <= q.confirmed && p.clock <= q.clock
    ensures Good(m, capacity, ttl, issued, q)
  {
    hide Sound, Stamped;
  }

  lemma IndexFound(entries: seq<Row>, r: Row)
    requires Distinct(entries) && r in entries
    ensures IndexOf(entries, Some(r.id)) < |entries| && entries[IndexOf(entries, Some(r.id))] == r
  {
  }

  // ---- begin -----------------------------------------------------------------------------------------

  lemma AppendDistinct(entries: seq<Row>, r: Row)
    requires Distinct(entries) && r.id !in Ids(entries)
    ensures Distinct(entries + [r])
  {
    forall i | 0 <= i < |entries| ensures entries[i].id != r.id {
      assert entries[i] in entries;
    }
  }

  /** Eviction takes no row a pending result stands on. */
  lemma EvictedIsConfirmed(m: Memory, capacity: nat, r: Row, confirmed: set<Identity>, now: real)
    requires Sound(m, capacity) && Reporting(m, confirmed) && r in m.entries
    requires Evictable(r, Protected(m.pending), now)
    ensures Confirmed(r.id, confirmed) && Deadline(r) < now
    ensures forall k :: k in m.pending ==> !Backs(r, m.pending[k])
  {
    hide Distinct, Backed;
    ProtectedHolds(m.pending);
    assert RowSound(r, m.pending);
    var k := IdentityOf(r.result.value);
    assert k !in m.pending;
    assert k in confirmed && k.commandId == Some(r.id);
  }

  lemma ProtectedHolds(pending: map<Identity, Wire>)
    ensures forall k :: k in pending ==> pending[k].result.commandId in Protected(pending)
  {
  }

  lemma BegunSound(m: Memory, capacity: nat, row: Row, kept: seq<Row>, confirmed: set<Identity>, now: real)
    requires Sound(m, capacity) && Reporting(m, confirmed) && row.id !in Ids(m.entries) && row.state == INTENT
             && RowValid(row)
    requires Trim(m.entries + [row], capacity, Protected(m.pending), now) == Some(kept)
    ensures Sound(Memory(kept, m.pending), capacity) && Reporting(Memory(kept, m.pending), confirmed) && row in kept
    ensures forall r :: r in m.entries && r !in kept ==> Evictable(r, Protected(m.pending), now)
    ensures forall r :: r in kept ==> r in m.entries || r == row
  {
    hide Distinct, Trim, RowValid, RowSound, Protected;
    var all := m.entries + [row];
    AppendDistinct(m.entries, row);
    IntentSound(row, m.pending);
    ProtectedHolds(m.pending);
    TrimKeeps(all, capacity, Protected(m.pending), now);
    assert row in all;
    forall k | k in m.pending && k.status == EXECUTED
      ensures exists r :: r in kept && Backs(r, m.pending[k])
    {
      var r :| r in m.entries && Backs(r, m.pending[k]);
      assert r in all;
    }
  }

  lemma IntentSound(r: Row, pending: map<Identity, Wire>)
    requires RowValid(r) && r.state == INTENT
    ensures RowSound(r, pending)
  {
  }

  /** The window after a begin accounts for the admitted command as well. */
  lemma BegunGood(m: Memory, capacity: nat, ttl: real, issued: string -> real, p: Past, row: Row, kept: seq<Row>,
                  now: real)
    requires Good(m, capacity, ttl, issued, p) && p.clock <= now
    requires row.id !in Ids(m.entries) && row.state == INTENT && RowValid(row)
             && row.retainUntil == Some(issued(row.id) + ttl)
    requires Trim(m.entries + [row], capacity, Protected(m.pending), now) == Some(kept)
    ensures Good(Memory(kept, m.pending), capacity, ttl, issued, Past(p.ids + {row.id}, p.confirmed, now))
    ensures row in kept
  {
    hide Sound, Distinct, Trim, RowValid, Confirmed, Reporting, Evictable;
    BegunSound(m, capacity, row, kept, p.confirmed, now);
    forall id | id in p.ids + {row.id}
      ensures Remembered(Memory(kept, m.pending), id, ttl, issued, p.confirmed, now)
    {
      if id != row.id && id in Ids(m.entries) {
        var r :| r in m.entries && r.id == id;
        if r !in kept {
          EvictedIsConfirmed(m, capacity, r, p.confirmed, now);
        }
      }
    }
  }

  // ---- results -----------------------------------------------------------------------------------------

  /** w may be queued: it repeats what is pending, and as an EXECUTED result it repeats its row. */
  ghost predicate Fits(m: Memory, w: Wire) {
    && (IdentityOf(w.result) in m.pending ==> m.pending[IdentityOf(w.result)] == w)
    && (w.result.status == EXECUTED ==>
          exists r :: r in m.entries && Backs(r, w) && (r.wire.Some? ==> r.wire == Some(w)))
  }

  /** The message chosen for a result never conflicts with what was queued before. */
  lemma ResultMessageFits(m: Memory, capacity: nat, r: Result, target: Name, stamp: real)
    requires Sound(m, capacity)
    requires r.status == EXECUTED ==>
               exists row :: row in m.entries && row.state == COMPLETED && Some(row.id) == r.commandId
                   && row.result == Some(r)
    ensures Fits(m, ResultMessage(m, r, target, stamp))
    ensures IdentityOf(ResultMessage(m, r, target, stamp).result) == IdentityOf(r)
  {
    hide RowValid;
    var w := ResultMessage(m, r, target, stamp);
    var i := IndexOf(m.entries, r.commandId);
    if i < |m.entries| {
      assert RowSound(m.entries[i], m.pending);
      CachedIsExecuted(m.entries[i], m.pending);
    }
    if r.status == EXECUTED {
      var row :| row in m.entries && row.state == COMPLETED && Some(row.id) == r.commandId && row.result == Some(r);
      IndexFound(m.entries, row);
      assert RowSound(row, m.pending);
      CachedIsExecuted(row, m.pending);
      if row.wire == None && IdentityOf(r) in m.pending {
        var other :| other in m.entries && Backs(other, m.pending[IdentityOf(r)]);
        IndexFound(m.entries, other);
      }
      assert Backs(row, w);
    }
  }

  lemma CachedIsExecuted(r: Row, pending: map<Identity, Wire>)
    requires RowSound(r, pending)
    ensures r.wire.Some? ==>
            r.state == COMPLETED && r.result == Some(r.wire.value.result) && r.wire.value.result.status == EXECUTED
  {
  }

  /** The rows of the window with row i replaced by one that says the same or more. */
  lemma ReplacedRows(entries: seq<Row>, i: nat, row: Row)
    requires Distinct(entries) && i < |entries| && row.id == entries[i].id
    ensures Distinct(entries[i := row]) && row in entries[i := row]
    ensures forall r :: r in entries[i := row] <==> r == row || (r in entries && r != entries[i])
    ensures Ids(entries[i := row]) == Ids(entries)
  {
    var t := entries[i := row];
    assert t[i] == row;
    forall r | r in entries && r != entries[i] ensures r in t {
      var j :| 0 <= j < |entries| && entries[j] == r;
      assert t[j] == r;
    }
    forall r | r in t && r != row ensures r in entries && r != entries[i] {
      var j :| 0 <= j < |t| && t[j] == r;
      assert j != i;
    }
    SameIds(entries, i, row);
  }

  lemma SameIds(entries: seq<Row>, i: nat, row: Row)
    requires i < |entries| && row.id == entries[i].id
    ensures Ids(entries[i := row]) == Ids(entries)
  {
    var t := entries[i := row];
    forall r | r in entries ensures r.id in Ids(t) {
      var j :| 0 <= j < |entries| && entries[j] == r;
      assert t[j] in t && t[j].id == r.id;
    }
    forall r | r in t ensures r.id in Ids(entries) {
      var j :| 0 <= j < |t| && t[j] == r;
      assert entries[j] in entries && entries[j].id == r.id;
    }
  }

  lemma PendingGrows(pending: map<Identity, Wire>, w: Wire)
    ensures |pending[IdentityOf(w.result) := w]| == |pending| + (if IdentityOf(w.result) in pending then 0 else 1)
  {
    var k := IdentityOf(w.result);
    assert pending[k := w].Keys == pending.Keys + {k};
  }

  /** Queueing a fitting message meets no conflict and keeps the window. */
  lemma QueuedGood(m: Memory, capacity: nat, ttl: real, issued: string -> real, p: Past, w: Wire)
    requires Good(m, capacity, ttl, issued, p) && Fits(m, w)
    ensures var (pending, v) := WithResult(m.pending, Params(capacity, ttl), w);
            && v != Broken
            && (v == Done ==> Good(Memory(Upgraded(m.entries, w), pending), capacity, ttl, issued, p))
  {
    hide Sound, Upgraded, Stamped, Reporting, Remembered;
    var (pending, v) := WithResult(m.pending, Params(capacity, ttl), w);
    if v == Done {
      QueuedSound(m, capacity, w);
      UpgradedRows(m, capacity, w);
      UpgradeKeeps(m, Memory(Upgraded(m.entries, w), pending), ttl, issued, p);
    }
  }

  /** next has the rows of m, some with their wire form filled in, and at least its pending results. */
  ghost predicate Extends(m: Memory, next: Memory) {
    && Ids(next.entries) == Ids(m.entries) && m.pending.Keys <= next.pending.Keys
    && forall r :: r in next.entries ==> exists s :: s in m.entries && SameButWire(r, s)
  }

  predicate SameButWire(r: Row, s: Row) {
    r.(wire := None) == s.(wire := None)
  }

  lemma UpgradeKeeps(m: Memory, next: Memory, ttl: real, issued: string -> real, p: Past)
    requires Stamped(m, ttl, issued) && Reporting(m, p.confirmed) && Extends(m, next)
    requires forall id :: id in p.ids ==> Remembered(m, id, ttl, issued, p.confirmed, p.clock)
    ensures Stamped(next, ttl, issued) && Reporting(next, p.confirmed)
    ensures forall id :: id in p.ids ==> Remembered(next, id, ttl, issued, p.confirmed, p.clock)
  {
    hide Ids, Confirmed;
  }

  lemma UpgradedRows(m: Memory, capacity: nat, w: Wire)
    requires Sound(m, capacity)
    ensures Extends(m, Memory(Upgraded(m.entries, w), m.pending[IdentityOf(w.result) := w]))
  {
    hide RowSound, Backed, Ids;
    var i := IndexOf(m.entries, w.result.commandId);
    var t := Upgraded(m.entries, w);
    assert m.pending[IdentityOf(w.result) := w].Keys == m.pending.Keys + {IdentityOf(w.result)};
    if t != m.entries {
      ReplacedRows(m.entries, i, t[i]);
    }
    forall r | r in t ensures exists s :: s in m.entries && SameButWire(r, s) {
      var s := if r in m.entries then r else m.entries[i];
      assert s in m.entries && SameButWire(r, s);
    }
  }

  lemma QueuedSound(m: Memory, capacity: nat, w: Wire)
    requires Sound(m, capacity) && Fits(m, w)
    requires IdentityOf(w.result) in m.pending || |m.pending| < capacity
    ensures Sound(Memory(Upgraded(m.entries, w), m.pending[IdentityOf(w.result) := w]), capacity)
  {
    hide RowSound, Backs, Upgraded, Fits;
    var pending := m.pending[IdentityOf(w.result) := w];
    var t := Upgraded(m.entries, w);
    PendingGrows(m.pending, w);
    UpgradedSound(m, capacity, w);
    UpgradedBacked(m, capacity, w);
  }

  lemma UpgradedSound(m: Memory, capacity: nat, w: Wire)
    requires Sound(m, capacity) && Fits(m, w)
    ensures var t := Upgraded(m.entries, w);
            && Distinct(t) && |t| == |m.entries|
            && forall r :: r in t ==> RowSound(r, m.pending[IdentityOf(w.result) := w])
  {
    hide Distinct, RowSound, Backed, RowValid;
    var i := IndexOf(m.entries, w.result.commandId);
    var t := Upgraded(m.entries, w);
    if t != m.entries {
      ReplacedRows(m.entries, i, t[i]);
    }
    forall r | r in t ensures RowSound(r, m.pending[IdentityOf(w.result) := w]) {
      if t != m.entries && r == t[i] {
        UpgradedRowSound(m, capacity, w, m.entries[i]);
      } else {
        OtherRowSound(m, capacity, w, r);
      }
    }
  }

  lemma UpgradedRowSound(m: Memory, capacity: nat, w: Wire, r: Row)
    requires Sound(m, capacity) && Fits(m, w) && r in m.entries && Some(r.id) == w.result.commandId
    requires r.state == COMPLETED && w.result.status == EXECUTED
    ensures RowSound(r.(wire := Some(w)), m.pending[IdentityOf(w.result) := w])
  {
    var s :| s in m.entries && Backs(s, w);
    IndexFound(m.entries, s);
    IndexFound(m.entries, r);
    assert RowSound(r, m.pending);
  }

  lemma OtherRowSound(m: Memory, capacity: nat, w: Wire, r: Row)
    requires Sound(m, capacity) && Fits(m, w) && r in m.entries
    ensures RowSound(r, m.pending[IdentityOf(w.result) := w])
  {
    hide RowValid;
    assert RowSound(r, m.pending);
    CachedIsExecuted(r, m.pending);
    if r.wire.Some? && IdentityOf(r.wire.value.result) == IdentityOf(w.result) {
      var s :| s in m.entries && Backs(s, w) && (s.wire.Some? ==> s.wire == Some(w));
      IndexFound(m.entries, s);
      IndexFound(m.entries, r);
    }
  }

  lemma UpgradedBacked(m: Memory, capacity: nat, w: Wire)
    requires Sound(m, capacity) && Fits(m, w)
    ensures Backed(Memory(Upgraded(m.entries, w), m.pending[IdentityOf(w.result) := w]))
  {
    hide RowSound, Distinct, RowValid;
    var i := IndexOf(m.entries, w.result.commandId);
    var t, pending := Upgraded(m.entries, w), m.pending[IdentityOf(w.result) := w];
    if t != m.entries {
      ReplacedRows(m.entries, i, t[i]);
    }
    forall k | k in pending && k.status == EXECUTED ensures exists r :: r in t && Backs(r, pending[k]) {
      var r :| r in m.entries && Backs(r, pending[k]);
      if r !in t {
        assert r == m.entries[i];
        assert Backs(t[i], pending[k]);
      }
    }
  }

  // ---- completion ----------------------------------------------------------------------------------

  /** The command at row i is under way and its result has room. */
  predicate UnderWay(m: Memory, capacity: nat, i: nat) {
    i < |m.entries| && m.entries[i].state == INTENT && |m.pending| < capacity
  }

  lemma NothingPendingFor(m: Memory, capacity: nat, i: nat, k: Identity)
    requires Sound(m, capacity) && UnderWay(m, capacity, i)
    requires k.commandId == Some(m.entries[i].id) && k.status == EXECUTED
    ensures k !in m.pending
  {
    hide RowSound;
    IndexFound(m.entries, m.entries[i]);
    forall r | r in m.entries && Some(r.id) == k.commandId ensures r.state == INTENT {
      IndexFound(m.entries, r);
    }
  }

  /** Completion always finds its row and its reserved place among the pending results. */
  lemma FinishedGood(m: Memory, capacity: nat, ttl: real, issued: string -> real, p: Past, i: nat,
                     result: Result, target: Name, stamp: real)
    requires Good(m, capacity, ttl, issued, p) && UnderWay(m, capacity, i)
    requires result.commandId == Some(m.entries[i].id) && result.status == EXECUTED
    ensures var w := ResultMessage(m, result, target, stamp);
            && IndexOf(m.entries, Some(m.entries[i].id)) == i
            && WithResult(m.pending, Params(capacity, ttl), w) == (m.pending[IdentityOf(result) := w], Done)
            && Good(Memory(Outcome(m.entries, i, result, w), m.pending[IdentityOf(result) := w]), capacity, ttl,
                issued, p)
  {
    hide Sound, Stamped, Reporting, Remembered, Outcome;
    var w := ResultMessage(m, result, target, stamp);
    NewMessage(m, capacity, i, result, target, stamp);
    FinishedSound(m, capacity, i, result, w);
    OutcomeKeeps(m, capacity, i, result, w, ttl, issued, p);
  }

  lemma NewMessage(m: Memory, capacity: nat, i: nat, result: Result, target: Name, stamp: real)
    requires Sound(m, capacity) && UnderWay(m, capacity, i)
    requires result.commandId == Some(m.entries[i].id) && result.status == EXECUTED
    ensures IndexOf(m.entries, Some(m.entries[i].id)) == i && IdentityOf(result) !in m.pending
    ensures ResultMessage(m, result, target, stamp) == Wire(target, stamp, result)
  {
    hide Backed;
    NothingPendingFor(m, capacity, i, IdentityOf(result));
    assert RowSound(m.entries[i], m.pending);
  }

  lemma FinishedSound(m: Memory, capacity: nat, i: nat, result: Result, w: Wire)
    requires Sound(m, capacity) && UnderWay(m, capacity, i) && w.result == result
    requires result.commandId == Some(m.entries[i].id) && result.status == EXECUTED
    ensures Sound(Memory(Outcome(m.entries, i, result, w), m.pending[IdentityOf(result) := w]), capacity)
  {
    hide RowValid, Distinct;
    var t, pending := Outcome(m.entries, i, result, w), m.pending[IdentityOf(result) := w];
    PendingGrows(m.pending, w);
    ReplacedRows(m.entries, i, t[i]);
    forall r | r in t ensures RowSound(r, pending) {
      if r == t[i] {
        NewRowSound(m.entries[i], m.pending, result, w);
      } else {
        assert RowSound(r, m.pending);
        CachedIsExecuted(r, m.pending);
        DifferentIds(m.entries, i, r);
      }
    }
    forall k | k in pending && k.status == EXECUTED ensures exists r :: r in t && Backs(r, pending[k]) {
      if k == IdentityOf(result) {
        assert Backs(t[i], w);
      } else {
        var r :| r in m.entries && Backs(r, m.pending[k]);
        assert r in t;
      }
    }
  }

  lemma DifferentIds(entries: seq<Row>, i: nat, r: Row)
    requires Distinct(entries) && i < |entries| && r in entries && r != entries[i]
    ensures r.id != entries[i].id
  {
  }

  lemma NewRowSound(r: Row, pending: map<Identity, Wire>, result: Result, w: Wire)
    requires RowSound(r, pending) && w.result == result && result.commandId == Some(r.id) && result.status == EXECUTED
    ensures RowSound(r.(state := COMPLETED, result := Some(result), wire := Some(w)), pending[IdentityOf(result) := w])
  {
  }

  lemma OutcomeKeeps(m: Memory, capacity: nat, i: nat, result: Result, w: Wire, ttl: real, issued: string -> real,
                     p: Past)
    requires Sound(m, capacity) && i < |m.entries|
    requires Stamped(m, ttl, issued) && Reporting(m, p.confirmed)
    requires forall id :: id in p.ids ==> Remembered(m, id, ttl, issued, p.confirmed, p.clock)
    ensures var next := Memory(Outcome(m.entries, i, result, w), m.pending[IdentityOf(result) := w]);
            && Stamped(next, ttl, issued) && Reporting(next, p.confirmed)
            && forall id :: id in p.ids ==> Remembered(next, id, ttl, issued, p.confirmed, p.clock)
  {
    hide RowSound, Backed, Distinct, Confirmed, Ids;
    var t := Outcome(m.entries, i, result, w);
    ReplacedRows(m.entries, i, t[i]);
    assert m.entries[i] in m.entries;
  }

  // ---- acknowledgement and start -------------------------------------------------------------------

  lemma AckedGood(m: Memory, capacity: nat, ttl: real, issued: string -> real, p: Past, k: Identity)
    requires Good(m, capacity, ttl, issued, p) && k in m.pending
    ensures Good(m.(pending := m.pending - {k}), capacity, ttl, issued, p.(confirmed := p.confirmed + {k}))
  {
    hide Ids, RowValid, Distinct;
    var next := m.(pending := m.pending - {k});
    SmallerMap(m.pending, k);
    forall r | r in m.entries ensures RowSound(r, next.pending) {
      assert RowSound(r, m.pending);
    }
  }

  lemma SmallerMap(pending: map<Identity, Wire>, k: Identity)
    requires k in pending
    ensures |pending - {k}| == |pending| - 1
  {
    assert (pending - {k}).Keys == pending.Keys - {k};
  }

  lemma EmptyGood(capacity: nat, ttl: real, issued: string -> real, p: Past)
    requires 1 <= capacity <= 1024 && p.ids == {}
    ensures Good(Memory([], map[]), capacity, ttl, issued, p)
  {
  }
}
