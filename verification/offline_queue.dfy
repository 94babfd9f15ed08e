/** The durable outbox of a gateway and its receipt ledger; a transaction is atomic. */
module OfflineQueues {
  import opened Wrappers
  import opened Bytes
  import opened HexText

  type Name = seq<byte>

  /** An upload; payload stands for its serialised form, high for its admission priority. */
  datatype Upload = Upload(messageId: Name, payload: seq<byte>, high: bool)

  datatype Row = Row(queueId: nat, upload: Upload)

  datatype Limits = Limits(maxMessages: nat, maxBytes: nat, reservedMessages: nat, reservedBytes: nat, maxReceipts: nat)

  /** Receipts keep the digest of the evidence; equal digests mean equal evidence. */
  datatype Outbox = Outbox(rows: seq<Row>, nextId: nat, receipts: map<Name, seq<byte>>)

  datatype Verdict = Admitted | Duplicate | Refused

  predicate ValidLimits(l: Limits) {
    l.reservedMessages < l.maxMessages && l.reservedBytes < l.maxBytes && l.maxReceipts > 0
  }

  function Size(rows: seq<Row>): nat {
    if rows == [] then 0 else Size(rows[..|rows| - 1]) + |rows[|rows| - 1].upload.payload|
  }

  predicate Queued(rows: seq<Row>, id: Name) {
    exists i :: 0 <= i < |rows| && rows[i].upload.messageId == id
  }

  function IdOf(rows: seq<Row>, id: Name): nat
    requires Queued(rows, id)
  {
    if rows[0].upload.messageId == id then rows[0].queueId
    else
      assert Queued(rows[1..], id) by {
        var i :| 0 <= i < |rows| && rows[i].upload.messageId == id;
        assert rows[1..][i - 1] == rows[i];
      }
      IdOf(rows[1..], id)
  }

  /** Normal uploads leave the reserve to uploads of high priority. */
  predicate HasRoom(q: Outbox, l: Limits, u: Upload) {
    var count := if u.high then l.maxMessages as int else l.maxMessages - l.reservedMessages;
    var bytes := if u.high then l.maxBytes as int else l.maxBytes - l.reservedBytes;
    |q.rows| < count && Size(q.rows) + |u.payload| <= bytes
  }

  function Appended(q: Outbox, u: Upload): Outbox {
    q.(rows := q.rows + [Row(q.nextId, u)], nextId := q.nextId + 1)
  }

  /** _enqueue: an identity that is waiting already keeps its row; None when there is no room. */
  function Enqueued(q: Outbox, l: Limits, u: Upload): Option<(Outbox, nat, bool)> {
    if Queued(q.rows, u.messageId) then Some((q, IdOf(q.rows, u.messageId), false))
    else if !HasRoom(q, l, u) then None
    else Some((Appended(q, u), q.nextId, true))
  }

  /** admit_sensor: receipt and outbox row together, or neither. */
  function SensorAdmitted(q: Outbox, l: Limits, u: Upload, digest: seq<byte>): (Outbox, Verdict) {
    var id := u.messageId;
    if id in q.receipts then (q, if q.receipts[id] == digest then Duplicate else Refused)
    else if |q.receipts| >= l.maxReceipts || Queued(q.rows, id) || !HasRoom(q, l, u) then (q, Refused)
    else (Appended(q, u).(receipts := q.receipts[id := digest]), Admitted)
  }

  /** A transaction whose commit may fail with or without effect; only a returned one is answered. */
  function Attempted(q: Outbox, l: Limits, u: Upload, digest: seq<byte>, o: SaveOutcome): (Outbox, Verdict) {
    var (p, v) := SensorAdmitted(q, l, u, digest);
    if o == Committed then (p, v) else (if o == LostApplied then p else q, Refused)
  }

  function Peeked(q: Outbox, limit: nat): seq<Row> {
    if |q.rows| <= limit then q.rows else q.rows[..limit]
  }

  function Removed(rows: seq<Row>, queueId: nat): seq<Row> {
    if rows == [] then []
    else if rows[0].queueId == queueId then Removed(rows[1..], queueId)
    else [rows[0]] + Removed(rows[1..], queueId)
  }

  // ---- what the outbox keeps -------------------------------------------------------------------------

  /** Oldest first, one row an identity, within the limits. */
  ghost predicate Sound(q: Outbox, l: Limits) {
    && (forall i, j :: 0 <= i < j < |q.rows| ==> q.rows[i].queueId < q.rows[j].queueId)
    && (forall i, j :: 0 <= i < j < |q.rows| ==> q.rows[i].upload.messageId != q.rows[j].upload.messageId)
    && (forall i :: 0 <= i < |q.rows| ==> q.rows[i].queueId < q.nextId)
    && |q.rows| <= l.maxMessages && Size(q.rows) <= l.maxBytes && |q.receipts| <= l.maxReceipts
  }

  lemma AppendSound(q: Outbox, l: Limits, u: Upload)
    requires ValidLimits(l) && Sound(q, l) && !Queued(q.rows, u.messageId) && HasRoom(q, l, u)
    ensures Sound(Appended(q, u), l)
  {
    assert (q.rows + [Row(q.nextId, u)])[..|q.rows|] == q.rows;
  }

  /** Admission keeps the outbox sound, whichever way its commit ends; a receipt is never lost. */
  lemma AdmissionKeeps(q: Outbox, l: Limits, u: Upload, digest: seq<byte>, o: SaveOutcome)
    requires ValidLimits(l) && Sound(q, l)
    ensures var (p, v) := Attempted(q, l, u, digest, o);
            && Sound(p, l)
            && (v != Refused ==> u.messageId in p.receipts && p.receipts[u.messageId] == digest)
            && (v == Admitted ==> Queued(p.rows, u.messageId))
            && (forall id :: id in q.receipts ==> id in p.receipts && p.receipts[id] == q.receipts[id])
            && (forall id :: Queued(q.rows, id) ==> Queued(p.rows, id))
            && (forall id :: id in p.receipts && id !in q.receipts ==> Queued(p.rows, id))
  {
    hide Sound, Size;
    var p := Appended(q, u);
    QueuedAppend(q.rows, Row(q.nextId, u));
    if u.messageId !in q.receipts && |q.receipts| < l.maxReceipts && !Queued(q.rows, u.messageId) && HasRoom(q, l, u) {
      AppendSound(q, l, u);
      ReceiptSound(p, l, u.messageId, digest);
    }
  }

  lemma QueuedAppend(rows: seq<Row>, r: Row)
    ensures forall id :: Queued(rows + [r], id) <==> Queued(rows, id) || id == r.upload.messageId
  {
    var t := rows + [r];
    assert t[|rows|] == r;
    forall id | Queued(rows, id) ensures Queued(t, id) {
      var i :| 0 <= i < |rows| && rows[i].upload.messageId == id;
      assert t[i] == rows[i];
    }
  }

  lemma ReceiptSound(q: Outbox, l: Limits, id: Name, digest: seq<byte>)
    requires Sound(q, l) && |q.receipts| < l.maxReceipts
    ensures Sound(q.(receipts := q.receipts[id := digest]), l)
  {
    assert q.receipts[id := digest].Keys == q.receipts.Keys + {id};
  }

  /** A normal upload admitted leaves at least the reserve free. */
  lemma ReserveKept(q: Outbox, l: Limits, u: Upload)
    requires ValidLimits(l) && Sound(q, l) && !u.high
    ensures Enqueued(q, l, u).Some? && Enqueued(q, l, u).value.2 ==>
              var p := Enqueued(q, l, u).value.0;
              |p.rows| + l.reservedMessages <= l.maxMessages && Size(p.rows) + l.reservedBytes <= l.maxBytes
  {
    assert (q.rows + [Row(q.nextId, u)])[..|q.rows|] == q.rows;
  }

  lemma {:induction false} RemovedRows(rows: seq<Row>, queueId: nat)
    ensures forall r :: r in Removed(rows, queueId) <==> r in rows && r.queueId != queueId
  {
    if rows != [] {
      RemovedRows(rows[1..], queueId);
    }
  }

  /** Deleting the row of an identity deletes that identity and no other. */
  lemma DeletedIdentity(q: Outbox, l: Limits, r: Row)
    requires Sound(q, l) && r in q.rows
    ensures forall id :: Queued(Removed(q.rows, r.queueId), id) <==> Queued(q.rows, id) && id != r.upload.messageId
  {
    hide Size, Removed;
    var t := Removed(q.rows, r.queueId);
    RemovedRows(q.rows, r.queueId);
    forall id | Queued(q.rows, id) && id != r.upload.messageId ensures Queued(t, id) {
      var i :| 0 <= i < |q.rows| && q.rows[i].upload.messageId == id;
      assert q.rows[i] in t;
      var j :| 0 <= j < |t| && t[j] == q.rows[i];
    }
    forall id | Queued(t, id) ensures Queued(q.rows, id) && id != r.upload.messageId {
      var j :| 0 <= j < |t| && t[j].upload.messageId == id;
      assert t[j] in q.rows && t[j].queueId != r.queueId;
      var i :| 0 <= i < |q.rows| && q.rows[i] == t[j];
      var k :| 0 <= k < |q.rows| && q.rows[k] == r;
    }
  }

  lemma {:induction false} RemovedOrder(rows: seq<Row>, queueId: nat)
    requires forall i, j :: 0 <= i < j < |rows| ==> rows[i].queueId < rows[j].queueId
    requires forall i, j :: 0 <= i < j < |rows| ==> rows[i].upload.messageId != rows[j].upload.messageId
    ensures var t := Removed(rows, queueId);
            && (forall i, j :: 0 <= i < j < |t| ==> t[i].queueId < t[j].queueId)
            && (forall i, j :: 0 <= i < j < |t| ==> t[i].upload.messageId != t[j].upload.messageId)
            && |t| <= |rows|
  {
    if rows != [] {
      RemovedOrder(rows[1..], queueId);
      RemovedRows(rows[1..], queueId);
      forall r | r in rows[1..] ensures r.queueId > rows[0].queueId && r.upload.messageId != rows[0].upload.messageId {}
    }
  }

  function FrontSize(rows: seq<Row>): nat {
    if rows == [] then 0 else |rows[0].upload.payload| + FrontSize(rows[1..])
  }

  lemma {:induction false} SizeAppend(rows: seq<Row>, r: Row)
    ensures FrontSize(rows + [r]) == FrontSize(rows) + |r.upload.payload|
  {
    if rows != [] {
      assert (rows + [r])[1..] == rows[1..] + [r];
      SizeAppend(rows[1..], r);
    }
  }

  lemma {:induction false} SizeIsFrontSize(rows: seq<Row>)
    ensures Size(rows) == FrontSize(rows)
  {
    if rows != [] {
      var n := |rows| - 1;
      SizeIsFrontSize(rows[..n]);
      SizeAppend(rows[..n], rows[n]);
      assert rows[..n] + [rows[n]] == rows;
    }
  }

  lemma {:induction false} RemovedSize(rows: seq<Row>, queueId: nat)
    ensures FrontSize(Removed(rows, queueId)) <= FrontSize(rows)
  {
    if rows != [] {
      RemovedSize(rows[1..], queueId);
      assert ([rows[0]] + Removed(rows[1..], queueId))[1..] == Removed(rows[1..], queueId);
    }
  }

  lemma DeletionKeeps(q: Outbox, l: Limits, queueId: nat)
    requires Sound(q, l)
    ensures Sound(q.(rows := Removed(q.rows, queueId)), l)
  {
    hide Removed, Size, FrontSize;
    var t := Removed(q.rows, queueId);
    RemovedOrder(q.rows, queueId);
    RemovedRows(q.rows, queueId);
    RemovedSize(q.rows, queueId);
    SizeIsFrontSize(q.rows);
    SizeIsFrontSize(t);
    forall i | 0 <= i < |t| ensures t[i].queueId < q.nextId {
      assert t[i] in t;
      var j :| 0 <= j < |q.rows| && q.rows[j] == t[i];
    }
  }

  // ---- freshness -------------------------------------------------------------------------------------

  /** Position of the last '-', |s| when there is none. */
  function LastDash(s: Name): (i: nat)
    ensures i <= |s|
    ensures i < |s| ==> s[i] == 45 && 45 !in s[i + 1..]
    ensures i == |s| ==> 45 !in s
  {
    if s == [] then 0
    else if s[|s| - 1] == 45 then |s| - 1
    else
      var i := LastDash(s[..|s| - 1]);
      if i == |s| - 1 then |s| else i
  }

  function Head(s: Name): Name {
    s[..LastDash(s)]
  }

  /** Everything before the last two parts of an identity, and a dash. */
  function Prefix(identity: Name): Name {
    Head(Head(identity)) + [45]
  }

  const LOWEST: Name := [48, 48, 48, 48, 48, 48, 48, 48, 45, 83]
  const HIGHEST: Name := [102, 102, 102, 102, 102, 102, 102, 102, 45, 83]

  predicate InRange(prefix: Name, id: Name) {
    !Less(id, prefix + LOWEST) && !Less(prefix + HIGHEST, id)
  }

  /** sensor_is_fresh: the identity lies above every receipt in the range of its prefix. */
  predicate SensorIsFresh(receipts: set<Name>, identity: Name) {
    forall id :: id in receipts && InRange(Prefix(identity), id) ==> Less(id, identity)
  }

  class OfflineQueue {
    const limits: Limits
    var rows: seq<Row>
    var nextId: nat
    var receipts: map<Name, seq<byte>>

    ghost function View(): Outbox
      reads this
    {
      Outbox(rows, nextId, receipts)
    }

    constructor (limits: Limits)
      requires ValidLimits(limits)
      ensures this.limits == limits && View() == Outbox([], 1, map[])
    {
      this.limits, rows, nextId, receipts := limits, [], 1, map[];
    }

    /** SELECT of the row with a message id. */
    method Find(id: Name) returns (row: Option<Row>)
      ensures row == None <==> !Queued(rows, id)
      ensures row.Some? ==> row.value in rows && row.value.queueId == IdOf(rows, id)
    {
      row := None;
      var i := 0;
      while i < |rows|
        invariant i <= |rows| && (Queued(rows, id) <==> Queued(rows[i..], id))
        invariant Queued(rows, id) ==> IdOf(rows, id) == IdOf(rows[i..], id)
      {
        if rows[i].upload.messageId == id {
          assert rows[i..][0] == rows[i];
          return Some(rows[i]);
        }
        SkipRow(rows[i..], id);
        assert rows[i..][1..] == rows[i + 1..];
        i := i + 1;
      }
    }

    method TotalSize() returns (n: nat)
      ensures n == Size(rows)
    {
      n := 0;
      for i := 0 to |rows|
        invariant n == Size(rows[..i])
      {
        n := n + |rows[i].upload.payload|;
        assert rows[..i + 1][..i] == rows[..i];
      }
      assert rows[..|rows|] == rows;
    }

    method Insert(u: Upload) returns (queueId: Option<nat>)
      modifies this
      ensures match Enqueued(old(View()), limits, u)
              case Some((q, id, _)) => queueId == Some(id) && View() == q
              case None => queueId == None && View() == old(View())
    {
      var row := Find(u.messageId);
      if row.Some? {
        return Some(row.value.queueId);
      }
      var size := TotalSize();
      var count := if u.high then limits.maxMessages as int else limits.maxMessages - limits.reservedMessages;
      var bytes := if u.high then limits.maxBytes as int else limits.maxBytes - limits.reservedBytes;
      if |rows| >= count || size + |u.payload| > bytes {
        return None;
      }
      rows, nextId, queueId := rows + [Row(nextId, u)], nextId + 1, Some(nextId);
    }

    /** admit_sensor inside one transaction. */
    method AdmitSensor(u: Upload, digest: seq<byte>) returns (v: Verdict)
      modifies this
      ensures (View(), v) == SensorAdmitted(old(View()), limits, u, digest)
    {
      var id := u.messageId;
      if id in receipts {
        return if receipts[id] == digest then Duplicate else Refused;
      }
      if |receipts| >= limits.maxReceipts {
        return Refused;
      }
      var row := Find(id);
      if row.Some? {
        return Refused;
      }
      var queueId := Insert(u);
      if queueId == None {
        return Refused;
      }
      receipts, v := receipts[id := digest], Admitted;
    }

    /** The same with the commit of the transaction: an exception is answered like a refusal. */
    method AdmitDurably(u: Upload, digest: seq<byte>, o: SaveOutcome) returns (v: Verdict)
      modifies this
      ensures (View(), v) == Attempted(old(View()), limits, u, digest, o)
    {
      var rowsBefore, idBefore, receiptsBefore := rows, nextId, receipts;
      v := AdmitSensor(u, digest);
      if o != Committed {
        v := Refused;
        if o == LostUnapplied {
          rows, nextId, receipts := rowsBefore, idBefore, receiptsBefore;
        }
      }
    }

    method Peek(limit: nat) returns (batch: seq<Row>)
      ensures batch == Peeked(View(), limit)
    {
      batch := if |rows| <= limit then rows else rows[..limit];
    }

    method Delete(queueId: nat)
      modifies this
      ensures View() == old(View()).(rows := Removed(old(rows), queueId))
    {
      rows := Removed(rows, queueId);
    }

    /** The highest receipt in the range decides. */
    method IsFresh(identity: Name) returns (newest: bool)
      ensures newest <==> SensorIsFresh(receipts.Keys, identity)
    {
      hide Less, InRange, Prefix;
      var prefix := Prefix(identity);
      var latest: Option<Name> := None;
      var todo := receipts.Keys;
      while todo != {}
        invariant todo <= receipts.Keys
        invariant latest.Some? ==> latest.value in receipts && InRange(prefix, latest.value)
        invariant forall id :: id in receipts && id !in todo && InRange(prefix, id) ==>
                    latest.Some? && (id == latest.value || Less(id, latest.value))
        decreases todo
      {
        var id :| id in todo;
        todo := todo - {id};
        if InRange(prefix, id) && (latest == None || Less(latest.value, id)) {
          Replaces(receipts.Keys - todo, latest, id);
          latest := Some(id);
        } else if latest.Some? {
          LessTotal(id, latest.value);
        }
      }
      newest := latest == None || Less(latest.value, identity);
      if latest.Some? {
        Replaces(receipts.Keys, latest, identity);
      }
    }
  }

  /** What lies below the latest lies below anything above the latest. */
  lemma Replaces(ids: set<Name>, latest: Option<Name>, id: Name)
    ensures latest.Some? && Less(latest.value, id) ==> forall x :: x in ids && Less(x, latest.value) ==> Less(x, id)
  {
    if latest.Some? && Less(latest.value, id) {
      forall x | x in ids && Less(x, latest.value) ensures Less(x, id) {
        LessTransitive(x, latest.value, id);
      }
    }
  }

  lemma SkipRow(rows: seq<Row>, id: Name)
    requires rows != [] && rows[0].upload.messageId != id
    ensures Queued(rows, id) <==> Queued(rows[1..], id)
    ensures Queued(rows, id) ==> IdOf(rows, id) == IdOf(rows[1..], id)
  {
    if Queued(rows, id) {
      var i :| 0 <= i < |rows| && rows[i].upload.messageId == id;
      assert rows[1..][i - 1] == rows[i];
    }
    if Queued(rows[1..], id) {
      var i :| 0 <= i < |rows[1..]| && rows[1..][i].upload.messageId == id;
      assert rows[i + 1] == rows[1..][i];
    }
  }

  /** Removing the oldest row leaves the others in order. */
  lemma RemoveOldest(q: Outbox, l: Limits)
    requires Sound(q, l) && q.rows != []
    ensures Removed(q.rows, q.rows[0].queueId) == q.rows[1..]
  {
    hide Size;
    RemoveAbsent(q.rows[1..], q.rows[0].queueId);
  }

  lemma {:induction false} RemoveAbsent(rows: seq<Row>, queueId: nat)
    requires forall i :: 0 <= i < |rows| ==> rows[i].queueId != queueId
    ensures Removed(rows, queueId) == rows
  {
    if rows != [] {
      RemoveAbsent(rows[1..], queueId);
    }
  }

  class Uplink {
    const queue: OfflineQueue

    constructor (queue: OfflineQueue)
      ensures this.queue == queue
    {
      this.queue := queue;
    }

    /**
     * One batch of _flush_offline_queue. receipts says which of its messages the cloud confirms in
     * time. The confirmed ones are the oldest of the outbox, and exactly they are deleted.
     */
    method FlushBatch(limit: nat, receipts: seq<bool>) returns (delivered: nat)
      requires ValidLimits(queue.limits) && Sound(queue.View(), queue.limits) && limit <= |receipts|
      modifies queue
      ensures Sound(queue.View(), queue.limits)
      ensures delivered <= |old(queue.rows)| && delivered <= limit && queue.rows == old(queue.rows)[delivered..]
      ensures forall k :: 0 <= k < delivered ==> receipts[k]
      ensures delivered < |old(queue.rows)| && delivered < limit ==> !receipts[delivered]
      ensures queue.receipts == old(queue.receipts) && queue.nextId == old(queue.nextId)
    {
      hide Sound, Removed, Size;
      var batch := queue.Peek(limit);
      delivered := 0;
      while delivered < |batch| && receipts[delivered]
        invariant delivered <= |batch| && Sound(queue.View(), queue.limits)
        invariant queue.rows == old(queue.rows)[delivered..]
        invariant forall k :: 0 <= k < delivered ==> receipts[k]
        invariant queue.receipts == old(queue.receipts) && queue.nextId == old(queue.nextId)
      {
        assert batch[delivered] == queue.rows[0];
        RemoveOldest(queue.View(), queue.limits);
        DeletionKeeps(queue.View(), queue.limits, batch[delivered].queueId);
        queue.Delete(batch[delivered].queueId);
        delivered := delivered + 1;
      }
    }
  }
}
